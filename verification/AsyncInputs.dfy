/**
 Prompts that a task asks without waiting: found in any nested state, and matched
 with the replies that were accepted. A state is an ordered tree; the encoding of
 ids and replies and the digest of keys are parameters.
 */
module AsyncInputs {
  import opened Prelude

  datatype Json =
    | Null
    | Bool(on: bool)
    | Number(digits: string)
    | Text(text: string)
    | List(items: seq<Json>)
    | Object(names: seq<string>, values: seq<Json>)

  /** How ids, replies and keys are written down. */
  datatype Codec = Codec(
    itemId: (string, nat) -> string,
    digest: string -> string,
    encode: (string, string, string) -> string,
    decode: string -> Option<seq<(string, string)>>)

  // ----- Reading trees ------------------------------------------------------------------

  function IndexOf(names: seq<string>, name: string): nat {
    if names == [] || names[0] == name then 0 else 1 + IndexOf(names[1..], name)
  }

  function Field(v: Json, name: string): Json {
    if v.Object? && IndexOf(v.names, name) < |v.values| && name in v.names then v.values[IndexOf(v.names, name)] else Null
  }

  /** The list under this name; an absent or other value counts as none. */
  function ListAt(v: Json, name: string): Option<seq<Json>> {
    var field := Field(v, name);
    if field.List? then Some(field.items) else None
  }

  function Scalar(v: Json): string {
    match v
    case Text(text) => text
    case Number(digits) => digits
    case _ => ""
  }

  // ----- Replies ------------------------------------------------------------------------------

  const OPEN := "<send_user_message_question_reply>"
  const CLOSE := "</send_user_message_question_reply>"

  predicate HasPrefix(text: string, prefix: string) {
    prefix <= text
  }

  predicate HasSuffix(text: string, suffix: string) {
    |suffix| <= |text| && text[|text| - |suffix|..] == suffix
  }

  /** The payload between the two marks. */
  function Payload(text: string): Option<string> {
    var trimmed := Trim(text);
    if !HasPrefix(trimmed, OPEN) || !HasSuffix(trimmed, CLOSE) then None
    else
      var tail := trimmed[|OPEN|..];
      Some(Trim(if HasSuffix(tail, CLOSE) then tail[..|tail| - |CLOSE|] else tail))
  }

  /** The one text part of an accepted message of the user. */
  function MessageText(item: Json): Option<string> {
    var kind := Field(item, "type");
    var parts :=
      if kind == Text("steeringUserMessage") then (if Field(item, "status") == Text("accepted") then ListAt(item, "input") else None)
      else if kind == Text("userMessage") then ListAt(item, "content")
      else None;
    if parts.Some? && |parts.value| == 1 && Field(parts.value[0], "type") == Text("text")
    then Some(match Field(parts.value[0], "text") case Text(text) => text case _ => "")
    else None
  }

  /** The ids that a message answers. */
  function Answered(item: Json, codec: Codec): set<string> {
    match MessageText(item)
    case None => {}
    case Some(text) =>
      match Payload(text)
      case None => {}
      case Some(payload) =>
        match codec.decode(payload)
        case None => {}
        case Some(answers) => set a | a in answers && a.0 != "" :: a.0
  }

  function Replies(items: seq<Json>, codec: Codec): set<string> {
    if items == [] then {} else Replies(items[..|items| - 1], codec) + Answered(items[|items| - 1], codec)
  }

  method AsyncReplies(items: seq<Json>, codec: Codec) returns (result: set<string>)
    ensures result == Replies(items, codec)
  {
    result := {};
    for i := 0 to |items|
      invariant result == Replies(items[..i], codec)
    {
      assert items[..i + 1][..i] == items[..i];
      result := result + Answered(items[i], codec);
    }
    assert items[..|items|] == items;
  }

  /** All answered ids; a list of items is not searched any deeper. */
  function Answers(v: Json, codec: Codec): set<string>
    decreases v, 0
  {
    match v
    case Object(_, values) => if ListAt(v, "items").Some? then Replies(ListAt(v, "items").value, codec) else AnswersOf(values, codec)
    case List(items) => AnswersOf(items, codec)
    case _ => {}
  }

  function AnswersOf(values: seq<Json>, codec: Codec): set<string>
    decreases values
  {
    if values == [] then {} else Answers(values[0], codec) + AnswersOf(values[1..], codec)
  }

  method CollectAnswers(v: Json, codec: Codec, known: set<string>) returns (answered: set<string>)
    ensures answered == known + Answers(v, codec)
    decreases v, 0
  {
    answered := known;
    match v {
      case Object(_, values) =>
        var items := ListAt(v, "items");
        if items.Some? {
          var replies := AsyncReplies(items.value, codec);
          answered := answered + replies;
        } else {
          answered := CollectAll(values, codec, answered);
        }
      case List(items) => answered := CollectAll(items, codec, answered);
      case _ =>
    }
  }

  method CollectAll(values: seq<Json>, codec: Codec, known: set<string>) returns (answered: set<string>)
    ensures answered == known + AnswersOf(values, codec)
    decreases values
  {
    answered := known;
    if values != [] {
      answered := CollectAnswers(values[0], codec, answered);
      answered := CollectAll(values[1..], codec, answered);
    }
  }

  // ----- Prompts ---------------------------------------------------------------------------------

  datatype Prompt = Prompt(turn: string, id: string, title: string, options: seq<string>)

  function Options(values: seq<Json>): seq<string> {
    if values == [] then []
    else Options(values[..|values| - 1]) + (match values[|values| - 1] case Text(text) => (if text != "" then [text] else []) case _ => [])
  }

  /** One question; secret and empty ones are not asked here. */
  function QuestionPrompt(q: Json, turn: string, id: string): seq<Prompt> {
    var title := match Field(q, "title") case Text(text) => text case _ => "";
    if Field(q, "isSecret") == Bool(true) || Trim(title) == "" then []
    else [Prompt(turn, id, title, Options(ListAt(q, "options").GetOr([])))]
  }

  function QuestionPrompts(questions: seq<Json>, turn: string, source: string, codec: Codec): seq<Prompt> {
    if questions == [] then []
    else
      var n := |questions| - 1;
      QuestionPrompts(questions[..n], turn, source, codec) + QuestionPrompt(questions[n], turn, codec.itemId(source, n))
  }

  function ItemPrompts(item: Json, turn: string, codec: Codec): seq<Prompt> {
    var source := Scalar(Field(item, "id"));
    if Field(item, "type") != Text("agentMessage") || Field(item, "delivery") != Text("async") || source == "" then []
    else
      var questions := ListAt(item, "questions").GetOr([]);
      if questions == [] then QuestionPrompt(Object(["title"], [Field(item, "text")]), turn, source)
      else QuestionPrompts(questions, turn, source, codec)
  }

  function PromptsIn(items: seq<Json>, turn: string, codec: Codec): seq<Prompt> {
    if items == [] then [] else PromptsIn(items[..|items| - 1], turn, codec) + ItemPrompts(items[|items| - 1], turn, codec)
  }

  function TurnOf(v: Json): string {
    if Scalar(Field(v, "turnId")) == "" then Scalar(Field(v, "id")) else Scalar(Field(v, "turnId"))
  }

  /** All prompts, in order; inside a turn's items nothing deeper is searched. */
  function Prompts(v: Json, codec: Codec): seq<Prompt>
    decreases v, 0
  {
    match v
    case Object(_, values) =>
      if ListAt(v, "items").Some? && TurnOf(v) != "" then PromptsIn(ListAt(v, "items").value, TurnOf(v), codec)
      else PromptsOf(values, codec)
    case List(items) => PromptsOf(items, codec)
    case _ => []
  }

  function PromptsOf(values: seq<Json>, codec: Codec): seq<Prompt>
    decreases values
  {
    if values == [] then [] else Prompts(values[0], codec) + PromptsOf(values[1..], codec)
  }

  // ----- Selection -----------------------------------------------------------------------------------

  function KeyText(p: Prompt): string {
    p.turn + "\0" + p.id
  }

  function KeyOf(p: Prompt, codec: Codec): string {
    "async_" + codec.digest(KeyText(p))
  }

  /** What is listed of these prompts, given the keys listed before. */
  function Select(prompts: seq<Prompt>, hidden: set<string>, seen: set<string>, codec: Codec): seq<Prompt>
    decreases |prompts|
  {
    if prompts == [] then []
    else
      var p := prompts[0];
      if p.id in hidden || KeyOf(p, codec) in seen then Select(prompts[1..], hidden, seen, codec)
      else [p] + Select(prompts[1..], hidden, seen + {KeyOf(p, codec)}, codec)
  }

  function Keys(prompts: seq<Prompt>, codec: Codec): set<string> {
    set p | p in prompts :: KeyOf(p, codec)
  }

  lemma {:induction false} SelectInParts(a: seq<Prompt>, b: seq<Prompt>, hidden: set<string>, seen: set<string>, codec: Codec)
    ensures Select(a + b, hidden, seen, codec)
      == Select(a, hidden, seen, codec) + Select(b, hidden, seen + Keys(Select(a, hidden, seen, codec), codec), codec)
    decreases |a|
  {
    if a == [] {
      assert a + b == b && seen + Keys([], codec) == seen;
    } else {
      assert (a + b)[1..] == a[1..] + b && (a + b)[0] == a[0];
      var p, key := a[0], KeyOf(a[0], codec);
      if p.id in hidden || key in seen {
        SelectInParts(a[1..], b, hidden, seen, codec);
      } else {
        SelectInParts(a[1..], b, hidden, seen + {key}, codec);
        var rest := Select(a[1..], hidden, seen + {key}, codec);
        assert Keys([p] + rest, codec) == {key} + Keys(rest, codec);
        assert seen + {key} + Keys(rest, codec) == seen + Keys([p] + rest, codec);
      }
    }
  }

  /** One more list of prompts, added to what is listed already. */
  method AddPrompts(prompts: seq<Prompt>, hidden: set<string>, codec: Codec, listed: seq<Prompt>, seen: set<string>)
    returns (result: seq<Prompt>, keys: set<string>)
    requires seen == Keys(listed, codec)
    ensures result == listed + Select(prompts, hidden, seen, codec) && keys == Keys(result, codec)
  {
    result, keys := listed, seen;
    assert prompts[0..] == prompts;
    for i := 0 to |prompts|
      invariant keys == Keys(result, codec)
      invariant result + Select(prompts[i..], hidden, keys, codec) == listed + Select(prompts, hidden, seen, codec)
    {
      var prompt := prompts[i];
      assert prompts[i..][0] == prompt && prompts[i..][1..] == prompts[i + 1..];
      if prompt.id in hidden { continue; }
      var key := KeyOf(prompt, codec);
      if key in keys { continue; }
      ghost var before := result;
      result, keys := result + [prompt], keys + {key};
      assert Keys(before + [prompt], codec) == Keys(before, codec) + {key};
    }
    assert prompts[|prompts|..] == [];
  }

  method Visit(v: Json, hidden: set<string>, codec: Codec, listed: seq<Prompt>, seen: set<string>)
    returns (result: seq<Prompt>, keys: set<string>)
    requires seen == Keys(listed, codec)
    ensures result == listed + Select(Prompts(v, codec), hidden, seen, codec) && keys == Keys(result, codec)
    decreases v, 0
  {
    match v {
      case Object(_, values) =>
        var items, turn := ListAt(v, "items"), TurnOf(v);
        if items.Some? && turn != "" {
          result, keys := AddPrompts(PromptsIn(items.value, turn, codec), hidden, codec, listed, seen);
        } else {
          result, keys := VisitAll(values, hidden, codec, listed, seen);
        }
      case List(items) => result, keys := VisitAll(items, hidden, codec, listed, seen);
      case _ => result, keys := listed, seen;
    }
  }

  method VisitAll(values: seq<Json>, hidden: set<string>, codec: Codec, listed: seq<Prompt>, seen: set<string>)
    returns (result: seq<Prompt>, keys: set<string>)
    requires seen == Keys(listed, codec)
    ensures result == listed + Select(PromptsOf(values, codec), hidden, seen, codec) && keys == Keys(result, codec)
    decreases values
  {
    result, keys := listed, seen;
    if values != [] {
      var first := Prompts(values[0], codec);
      SelectInParts(first, PromptsOf(values[1..], codec), hidden, seen, codec);
      result, keys := Visit(values[0], hidden, codec, listed, seen);
      assert keys == seen + Keys(Select(first, hidden, seen, codec), codec) by { KeysOfParts(listed, Select(first, hidden, seen, codec), codec); }
      result, keys := VisitAll(values[1..], hidden, codec, result, keys);
    }
  }

  lemma KeysOfParts(a: seq<Prompt>, b: seq<Prompt>, codec: Codec)
    ensures Keys(a + b, codec) == Keys(a, codec) + Keys(b, codec)
  {
  }

  /** The prompts of a state, with or without those that were answered. */
  function Listed(v: Json, includeAnswered: bool, codec: Codec): seq<Prompt> {
    Select(Prompts(v, codec), if includeAnswered then {} else Answers(v, codec), {}, codec)
  }

  method ListInputs(v: Json, includeAnswered: bool, codec: Codec) returns (result: seq<Prompt>)
    ensures result == Listed(v, includeAnswered, codec)
  {
    var answered := CollectAnswers(v, codec, {});
    assert answered == Answers(v, codec);
    var keys;
    result, keys := Visit(v, if includeAnswered then {} else answered, codec, [], {});
    assert [] + Listed(v, includeAnswered, codec) == Listed(v, includeAnswered, codec);
  }

  // ----- What the list is ----------------------------------------------------------------------------------

  /** No request id is listed twice. */
  lemma {:induction false} RequestIdsNeverRepeat(prompts: seq<Prompt>, hidden: set<string>, seen: set<string>, codec: Codec)
    ensures var listed := Select(prompts, hidden, seen, codec);
      && (forall p | p in listed :: p in prompts && p.id !in hidden && KeyOf(p, codec) !in seen)
      && (forall i, j | 0 <= i < j < |listed| :: KeyOf(listed[i], codec) != KeyOf(listed[j], codec))
    decreases |prompts|
  {
    if prompts != [] {
      var p, tail := prompts[0], prompts[1..];
      assert prompts == [p] + tail;
      if p.id in hidden || KeyOf(p, codec) in seen {
        RequestIdsNeverRepeat(tail, hidden, seen, codec);
      } else {
        RequestIdsNeverRepeat(tail, hidden, seen + {KeyOf(p, codec)}, codec);
        var rest := Select(tail, hidden, seen + {KeyOf(p, codec)}, codec);
        assert forall j | 0 <= j < |rest| :: rest[j] in rest;
      }
    }
  }

  /** A key tells the id of its prompt. */
  ghost predicate KeysTellIds(prompts: seq<Prompt>, codec: Codec) {
    forall p, q | p in prompts && q in prompts && KeyOf(p, codec) == KeyOf(q, codec) :: p.id == q.id
  }

  function Open(prompts: seq<Prompt>, answered: set<string>): seq<Prompt> {
    if prompts == [] then [] else (if prompts[0].id in answered then [] else [prompts[0]]) + Open(prompts[1..], answered)
  }

  /** The first prompt with this key. */
  function First(prompts: seq<Prompt>, key: string, codec: Codec): Option<Prompt> {
    if prompts == [] then None
    else if KeyOf(prompts[0], codec) == key then Some(prompts[0])
    else First(prompts[1..], key, codec)
  }

  /** No prompt that is not hidden shares a key, not seen yet, with a first prompt that is answered. */
  ghost predicate NoneShadowed(prompts: seq<Prompt>, hidden: set<string>, answered: set<string>, seen: set<string>, codec: Codec) {
    forall q | q in prompts && q.id !in hidden && KeyOf(q, codec) !in seen ::
      First(prompts, KeyOf(q, codec), codec).Some? && First(prompts, KeyOf(q, codec), codec).value.id !in answered
  }

  lemma TailNotShadowed(prompts: seq<Prompt>, hidden: set<string>, answered: set<string>, seen: set<string>, codec: Codec)
    requires prompts != [] && NoneShadowed(prompts, hidden, answered, seen, codec)
    ensures NoneShadowed(prompts[1..], hidden, answered, seen + {KeyOf(prompts[0], codec)}, codec)
    ensures KeyOf(prompts[0], codec) in seen ==> NoneShadowed(prompts[1..], hidden, answered, seen, codec)
  {
    hide KeyOf;
    assert prompts == [prompts[0]] + prompts[1..];
  }

  lemma {:induction false} OpenAreSelected(prompts: seq<Prompt>, hidden: set<string>, answered: set<string>, seenAll: set<string>,
                                           seenOpen: set<string>, codec: Codec)
    requires hidden <= answered && NoneShadowed(prompts, hidden, answered, seenAll, codec)
    requires forall p | p in prompts && p.id !in hidden :: KeyOf(p, codec) in seenAll <==> KeyOf(p, codec) in seenOpen
    ensures Select(prompts, hidden, seenOpen, codec) == Open(Select(prompts, {}, seenAll, codec), answered)
    decreases |prompts|
  {
    if prompts != [] {
      var p, tail, key := prompts[0], prompts[1..], KeyOf(prompts[0], codec);
      assert prompts == [p] + tail;
      assert forall q | q in tail :: q in prompts;
      TailNotShadowed(prompts, hidden, answered, seenAll, codec);
      if key in seenAll {
        OpenAreSelected(tail, hidden, answered, seenAll, seenOpen, codec);
      } else if p.id in answered {
        assert p.id in hidden by { assert First(prompts, key, codec) == Some(p); }
        assert forall q | q in tail && q.id !in hidden :: KeyOf(q, codec) != key by { assert First(prompts, key, codec) == Some(p); }
        OpenAreSelected(tail, hidden, answered, seenAll + {key}, seenOpen, codec);
        OpenOneMore(p, Select(tail, {}, seenAll + {key}, codec), answered);
      } else {
        OpenAreSelected(tail, hidden, answered, seenAll + {key}, seenOpen + {key}, codec);
        OpenOneMore(p, Select(tail, {}, seenAll + {key}, codec), answered);
      }
    }
  }

  lemma OpenOneMore(p: Prompt, rest: seq<Prompt>, answered: set<string>)
    ensures Open([p] + rest, answered) == (if p.id in answered then [] else [p]) + Open(rest, answered)
  {
    assert ([p] + rest)[1..] == rest;
  }

  lemma {:induction false} OpenMember(prompts: seq<Prompt>, answered: set<string>)
    ensures forall p :: p in Open(prompts, answered) <==> p in prompts && p.id !in answered
  {
    if prompts != [] {
      OpenMember(prompts[1..], answered);
      assert prompts == [prompts[0]] + prompts[1..];
    }
  }

  /** Every prompt that is not hidden is listed, or another one with its key is. */
  lemma {:induction false} SelectCovers(prompts: seq<Prompt>, hidden: set<string>, seen: set<string>, codec: Codec, q: Prompt)
    requires q in prompts && q.id !in hidden && KeyOf(q, codec) !in seen
    ensures exists r :: r in Select(prompts, hidden, seen, codec) && KeyOf(r, codec) == KeyOf(q, codec)
    decreases |prompts|
  {
    var p, tail := prompts[0], prompts[1..];
    assert prompts == [p] + tail;
    hide KeyOf;
    if p.id in hidden || KeyOf(p, codec) in seen {
      SelectCovers(tail, hidden, seen, codec, q);
    } else if KeyOf(p, codec) == KeyOf(q, codec) {
      assert p in Select(prompts, hidden, seen, codec);
    } else {
      SelectCovers(tail, hidden, seen + {KeyOf(p, codec)}, codec, q);
    }
  }

  /** Of the prompts with one key the first is listed, when none is hidden. */
  lemma {:induction false} FirstIsListed(prompts: seq<Prompt>, seen: set<string>, codec: Codec, r: Prompt)
    requires r in Select(prompts, {}, seen, codec)
    ensures First(prompts, KeyOf(r, codec), codec) == Some(r) && KeyOf(r, codec) !in seen
    decreases |prompts|
  {
    var p, tail := prompts[0], prompts[1..];
    hide KeyOf;
    if KeyOf(p, codec) in seen {
      FirstIsListed(tail, seen, codec, r);
    } else if r in Select(tail, {}, seen + {KeyOf(p, codec)}, codec) {
      FirstIsListed(tail, seen + {KeyOf(p, codec)}, codec, r);
    }
  }

  lemma {:induction false} FirstExists(prompts: seq<Prompt>, q: Prompt, codec: Codec)
    requires q in prompts
    ensures First(prompts, KeyOf(q, codec), codec).Some?
    ensures var f := First(prompts, KeyOf(q, codec), codec).value; f in prompts && KeyOf(f, codec) == KeyOf(q, codec)
  {
    assert prompts == [prompts[0]] + prompts[1..];
    if KeyOf(prompts[0], codec) != KeyOf(q, codec) { FirstExists(prompts[1..], q, codec); }
  }

  /**
   Hiding some prompts before keys are compared leaves the listed prompts without the
   answered ones, if and only if no prompt left has a key whose first prompt is answered.
   */
  lemma HiddenIsOpen(prompts: seq<Prompt>, hidden: set<string>, answered: set<string>, codec: Codec)
    requires hidden <= answered
    ensures Select(prompts, hidden, {}, codec) == Open(Select(prompts, {}, {}, codec), answered)
      <==> NoneShadowed(prompts, hidden, answered, {}, codec)
  {
    var some, all := Select(prompts, hidden, {}, codec), Select(prompts, {}, {}, codec);
    if NoneShadowed(prompts, hidden, answered, {}, codec) {
      OpenAreSelected(prompts, hidden, answered, {}, {}, codec);
    } else if some == Open(all, answered) {
      hide KeyOf, Select, Open, First;
      forall q | q in prompts && q.id !in hidden
        ensures First(prompts, KeyOf(q, codec), codec).Some? && First(prompts, KeyOf(q, codec), codec).value.id !in answered
      {
        SelectCovers(prompts, hidden, {}, codec, q);
        var r :| r in some && KeyOf(r, codec) == KeyOf(q, codec);
        OpenMember(all, answered);
        FirstIsListed(prompts, {}, codec, r);
      }
    }
  }

  /** Keys that tell ids are exactly what it takes to be right whatever was answered. */
  lemma KeysMustTell(prompts: seq<Prompt>, codec: Codec)
    ensures (forall answered: set<string> ::
              Select(prompts, answered, {}, codec) == Open(Select(prompts, {}, {}, codec), answered))
      <==> KeysTellIds(prompts, codec)
  {
    if KeysTellIds(prompts, codec) {
      forall answered: set<string>
        ensures Select(prompts, answered, {}, codec) == Open(Select(prompts, {}, {}, codec), answered)
      {
        TellingKeysShadowNone(prompts, answered, codec);
        HiddenIsOpen(prompts, answered, answered, codec);
      }
    } else {
      var p, q :| p in prompts && q in prompts && KeyOf(p, codec) == KeyOf(q, codec) && p.id != q.id;
      FirstExists(prompts, p, codec);
      hide KeyOf, First, Select, Open;
      var first := First(prompts, KeyOf(p, codec), codec).value;
      var other := if first.id == p.id then q else p;
      assert !NoneShadowed(prompts, {first.id}, {first.id}, {}, codec) by { assert other in prompts && other.id !in {first.id}; }
      HiddenIsOpen(prompts, {first.id}, {first.id}, codec);
    }
  }

  lemma TellingKeysShadowNone(prompts: seq<Prompt>, answered: set<string>, codec: Codec)
    requires KeysTellIds(prompts, codec)
    ensures NoneShadowed(prompts, answered, answered, {}, codec)
  {
    forall q | q in prompts && q.id !in answered
      ensures First(prompts, KeyOf(q, codec), codec).Some? && First(prompts, KeyOf(q, codec), codec).value.id !in answered
    {
      FirstExists(prompts, q, codec);
    }
  }

  // ----- Which replies there are ------------------------------------------------------------------------------

  predicate HasItems(v: Json) {
    ListAt(v, "items").Some?
  }

  /** A turn's items are the messages of a conversation; nothing below them belongs to it. */
  predicate IsTurn(v: Json) {
    HasItems(v) && TurnOf(v) != ""
  }

  /** `x` is `v`, or is found below it without passing what stops the search. */
  predicate Reached(x: Json, v: Json, stops: Json -> bool)
    decreases v
  {
    || x == v
    || (!stops(v)
        && match v
           case Object(_, values) => exists i | 0 <= i < |values| :: Reached(x, values[i], stops)
           case List(items) => exists i | 0 <= i < |items| :: Reached(x, items[i], stops)
           case _ => false)
  }

  ghost predicate AnsweredWithin(v: Json, stops: Json -> bool, id: string, codec: Codec) {
    exists x :: Reached(x, v, stops) && HasItems(x) && id in Replies(ListAt(x, "items").value, codec)
  }

  /** An accepted reply to this id lies wherever prompts are searched for. */
  ghost predicate IsAnswered(v: Json, id: string, codec: Codec) {
    AnsweredWithin(v, IsTurn, id, codec)
  }

  lemma Below(x: Json, v: Json, stops: Json -> bool, values: seq<Json>, i: nat)
    requires !stops(v) && i < |values| && Reached(x, values[i], stops)
    requires (v.Object? && values == v.values) || (v.List? && values == v.items)
    ensures Reached(x, v, stops)
  {
  }

  /** The search for answers stops at every list of items. */
  lemma {:induction false} AnswersAreOutside(v: Json, id: string, codec: Codec)
    ensures id in Answers(v, codec) <==> AnsweredWithin(v, HasItems, id, codec)
    decreases v, 0
  {
    if HasItems(v) {
      assert forall x :: Reached(x, v, HasItems) <==> x == v;
    } else {
      match v
      case Object(_, values) => AnswersOfChildren(v, values, id, codec);
      case List(items) => AnswersOfChildren(v, items, id, codec);
      case _ =>
    }
  }

  lemma {:induction false} AnswersOfChildren(v: Json, values: seq<Json>, id: string, codec: Codec)
    requires !HasItems(v) && ((v.Object? && values == v.values) || (v.List? && values == v.items))
    requires forall i | 0 <= i < |values| :: values[i] < v
    ensures id in AnswersOf(values, codec) <==> AnsweredWithin(v, HasItems, id, codec)
    decreases v, 0, 0
  {
    InAnswersOf(values, id, codec);
    forall i | 0 <= i < |values| ensures id in Answers(values[i], codec) <==> AnsweredWithin(values[i], HasItems, id, codec) {
      AnswersAreOutside(values[i], id, codec);
    }
    hide Answers, Replies, HasItems;
    forall x, i | 0 <= i < |values| && Reached(x, values[i], HasItems) ensures Reached(x, v, HasItems) { Below(x, v, HasItems, values, i); }
  }

  lemma {:induction false} InAnswersOf(values: seq<Json>, id: string, codec: Codec)
    ensures id in AnswersOf(values, codec) <==> exists i | 0 <= i < |values| :: id in Answers(values[i], codec)
  {
    if values != [] {
      InAnswersOf(values[1..], id, codec);
      hide Answers;
      assert forall i | 0 < i < |values| :: values[i] == values[1..][i - 1];
      assert forall i | 0 <= i < |values| - 1 :: values[1..][i] == values[i + 1];
    }
  }

  /** The ids that have an accepted reply, in one pass. */
  function AcceptedReplies(v: Json, codec: Codec): set<string>
    decreases v, 0
  {
    (if HasItems(v) then Replies(ListAt(v, "items").value, codec) else {})
    + if IsTurn(v) then {}
      else match v
        case Object(_, values) => AcceptedOf(values, codec)
        case List(items) => AcceptedOf(items, codec)
        case _ => {}
  }

  function AcceptedOf(values: seq<Json>, codec: Codec): set<string>
    decreases values
  {
    if values == [] then {} else AcceptedReplies(values[0], codec) + AcceptedOf(values[1..], codec)
  }

  lemma {:induction false} AcceptedAreAnswered(v: Json, id: string, codec: Codec)
    ensures id in AcceptedReplies(v, codec) <==> IsAnswered(v, id, codec)
    decreases v, 1
  {
    if IsTurn(v) {
      assert forall x :: Reached(x, v, IsTurn) <==> x == v;
    } else {
      match v
      case Object(_, values) => AcceptedOfChildren(v, values, id, codec);
      case List(items) => AcceptedOfChildren(v, items, id, codec);
      case _ => assert forall x :: Reached(x, v, IsTurn) <==> x == v;
    }
  }

  lemma {:induction false} AcceptedOfChildren(v: Json, values: seq<Json>, id: string, codec: Codec)
    requires !IsTurn(v) && ((v.Object? && values == v.values) || (v.List? && values == v.items))
    requires forall i | 0 <= i < |values| :: values[i] < v
    ensures id in (if HasItems(v) then Replies(ListAt(v, "items").value, codec) else {}) + AcceptedOf(values, codec)
      <==> IsAnswered(v, id, codec)
    decreases v, 0
  {
    InAcceptedOf(values, id, codec);
    forall i | 0 <= i < |values| ensures id in AcceptedReplies(values[i], codec) <==> IsAnswered(values[i], id, codec) {
      AcceptedAreAnswered(values[i], id, codec);
    }
    hide AcceptedReplies, Replies, HasItems, IsTurn;
    assert Reached(v, v, IsTurn);
    forall x, i | 0 <= i < |values| && Reached(x, values[i], IsTurn) ensures Reached(x, v, IsTurn) { Below(x, v, IsTurn, values, i); }
  }

  lemma {:induction false} InAcceptedOf(values: seq<Json>, id: string, codec: Codec)
    ensures id in AcceptedOf(values, codec) <==> exists i | 0 <= i < |values| :: id in AcceptedReplies(values[i], codec)
  {
    if values != [] {
      InAcceptedOf(values[1..], id, codec);
      hide AcceptedReplies;
      assert forall i | 0 < i < |values| :: values[i] == values[1..][i - 1];
      assert forall i | 0 <= i < |values| - 1 :: values[1..][i] == values[i + 1];
    }
  }

  lemma {:induction false} WiderReach(x: Json, v: Json)
    requires Reached(x, v, HasItems)
    ensures Reached(x, v, IsTurn)
    decreases v
  {
    if x != v {
      match v
      case Object(_, values) =>
        var i :| 0 <= i < |values| && Reached(x, values[i], HasItems);
        WiderReach(x, values[i]);
      case List(items) =>
        var i :| 0 <= i < |items| && Reached(x, items[i], HasItems);
        WiderReach(x, items[i]);
    }
  }

  /** What the search finds was accepted. */
  lemma AnswersAreAccepted(v: Json, codec: Codec)
    ensures Answers(v, codec) <= AcceptedReplies(v, codec)
  {
    forall id | id in Answers(v, codec) ensures id in AcceptedReplies(v, codec) {
      AnswersAreOutside(v, id, codec);
      AcceptedAreAnswered(v, id, codec);
      hide Answers, AcceptedReplies, HasItems, Replies;
      var x :| Reached(x, v, HasItems) && HasItems(x) && id in Replies(ListAt(x, "items").value, codec);
      WiderReach(x, v);
    }
  }

  /** An id is answered, but only in messages below a list of items that belongs to no turn. */
  ghost predicate OnlyBelowTurnless(v: Json, id: string, codec: Codec) {
    IsAnswered(v, id, codec) && !AnsweredWithin(v, HasItems, id, codec)
  }

  /**
   The open prompts are all prompts without those that have an accepted reply, if and
   only if no prompt without a found answer has a key whose first prompt is answered.
   */
  lemma OpenIsAllMinusAnswered(v: Json, codec: Codec)
    ensures Listed(v, false, codec) == Open(Listed(v, true, codec), AcceptedReplies(v, codec))
      <==> NoneShadowed(Prompts(v, codec), Answers(v, codec), AcceptedReplies(v, codec), {}, codec)
  {
    AnswersAreAccepted(v, codec);
    HiddenIsOpen(Prompts(v, codec), Answers(v, codec), AcceptedReplies(v, codec), codec);
  }

  /** If keys tell ids: if and only if no prompt's id is answered only below turnless items. */
  lemma OpenUnlessOnlyBelow(v: Json, codec: Codec)
    requires KeysTellIds(Prompts(v, codec), codec)
    ensures Listed(v, false, codec) == Open(Listed(v, true, codec), AcceptedReplies(v, codec))
      <==> forall p | p in Prompts(v, codec) :: !OnlyBelowTurnless(v, p.id, codec)
  {
    OpenIsAllMinusAnswered(v, codec);
    var prompts := Prompts(v, codec);
    forall p | p in prompts
      ensures First(prompts, KeyOf(p, codec), codec).Some? && First(prompts, KeyOf(p, codec), codec).value.id == p.id
      ensures OnlyBelowTurnless(v, p.id, codec) <==> p.id in AcceptedReplies(v, codec) && p.id !in Answers(v, codec)
    {
      FirstExists(prompts, p, codec);
      AnswersAreOutside(v, p.id, codec);
      AcceptedAreAnswered(v, p.id, codec);
    }
    hide Prompts, Answers, AcceptedReplies, OnlyBelowTurnless, First, KeyOf, Listed;
  }

  // ----- When keys tell ids --------------------------------------------------------------------------------

  predicate Injective(codec: Codec, texts: set<string>) {
    forall x, y | x in texts && y in texts && codec.digest(x) == codec.digest(y) :: x == y
  }

  /** Turns without a NUL and a digest without collisions are enough. */
  lemma PlainTurnsTell(prompts: seq<Prompt>, codec: Codec)
    requires Injective(codec, set p | p in prompts :: KeyText(p))
    requires forall p | p in prompts :: '\0' !in p.turn
    ensures KeysTellIds(prompts, codec)
  {
    forall p, q | p in prompts && q in prompts && KeyOf(p, codec) == KeyOf(q, codec) ensures p.id == q.id {
      assert KeyOf(p, codec)[6..] == codec.digest(KeyText(p)) && KeyOf(q, codec)[6..] == codec.digest(KeyText(q));
      assert KeyText(p) == KeyText(q);
      SplitAtNul(p, q);
    }
  }

  lemma SplitAtNul(p: Prompt, q: Prompt)
    requires KeyText(p) == KeyText(q) && '\0' !in p.turn && '\0' !in q.turn
    ensures p.turn == q.turn && p.id == q.id
  {
    var x, y := |p.turn|, |q.turn|;
    assert KeyText(p)[x] == '\0' && KeyText(q)[y] == '\0';
    assert forall i | 0 <= i < x :: KeyText(p)[i] == p.turn[i] && p.turn[i] != '\0';
    assert forall i | 0 <= i < y :: KeyText(q)[i] == q.turn[i] && q.turn[i] != '\0';
    assert x == y;
    assert KeyText(p)[..x] == p.turn && KeyText(q)[..y] == q.turn;
    assert KeyText(p)[x + 1..] == p.id && KeyText(q)[y + 1..] == q.id;
  }

  // ----- Finding and answering ------------------------------------------------------------------------------

  datatype Ref = TextRef(text: string) | IntegerRef(digits: string)

  function Compatibility(ref: Ref): string {
    match ref
    case TextRef(text) => text
    case IntegerRef(digits) => digits
  }

  /** The first open prompt with this request id. */
  function FindIn(prompts: seq<Prompt>, ref: Ref, codec: Codec): Option<Prompt> {
    if prompts == [] then None
    else if TextRef(KeyOf(prompts[0], codec)) == ref then Some(prompts[0])
    else FindIn(prompts[1..], ref, codec)
  }

  function Find(v: Json, ref: Ref, codec: Codec): Option<Prompt> {
    if !HasPrefix(Compatibility(ref), "async_") then None else FindIn(Listed(v, false, codec), ref, codec)
  }

  predicate Accepted(v: Json, target: Json, ref: Ref, codec: Codec) {
    Find(target, ref, codec).Some? && Find(target, ref, codec).value.id in Answers(v, codec)
  }

  lemma {:induction false} FoundIsListed(prompts: seq<Prompt>, ref: Ref, codec: Codec)
    ensures FindIn(prompts, ref, codec).Some? ==>
      FindIn(prompts, ref, codec).value in prompts && TextRef(KeyOf(FindIn(prompts, ref, codec).value, codec)) == ref
    ensures FindIn(prompts, ref, codec).None? ==> forall p | p in prompts :: TextRef(KeyOf(p, codec)) != ref
  {
    if prompts != [] {
      FoundIsListed(prompts[1..], ref, codec);
      assert prompts == [prompts[0]] + prompts[1..];
    }
  }

  /** Once its reply is accepted, a prompt can no longer be found as open. */
  lemma AcceptedIsNoLongerOpen(v: Json, target: Json, ref: Ref, codec: Codec)
    requires KeysTellIds(Prompts(target, codec) + Prompts(v, codec), codec)
    requires Accepted(v, target, ref, codec)
    ensures Find(v, ref, codec).None?
  {
    var asked := Find(target, ref, codec).value;
    FoundIsListed(Listed(target, false, codec), ref, codec);
    RequestIdsNeverRepeat(Prompts(target, codec), Answers(target, codec), {}, codec);
    FoundIsListed(Listed(v, false, codec), ref, codec);
    RequestIdsNeverRepeat(Prompts(v, codec), Answers(v, codec), {}, codec);
    forall p | p in Listed(v, false, codec) ensures TextRef(KeyOf(p, codec)) != ref {
      assert p in Prompts(target, codec) + Prompts(v, codec) && asked in Prompts(target, codec) + Prompts(v, codec);
    }
  }

  // ----- Answering round trip --------------------------------------------------------------------------------

  /** The message that carries an answer back. */
  function ReplyText(payload: string): string {
    OPEN + "\n" + payload + "\n" + CLOSE
  }

  function ReplyMessage(payload: string): Json {
    Object(["type", "content"], [Text("userMessage"), List([Object(["type", "text"], [Text("text"), Text(ReplyText(payload))])])])
  }

  predicate IsTight(text: string) {
    text != "" && !IsSpace(text[0]) && !IsSpace(text[|text| - 1])
  }

  lemma TrimTight(text: string)
    requires IsTight(text)
    ensures Trim(text) == text && Trim("\n" + text + "\n") == text
  {
    var inner := text + "\n";
    assert ("\n" + text + "\n")[1..] == inner && inner[0] == text[0];
    assert TrimLeft(inner) == inner;
    assert TrimLeft("\n" + text + "\n") == inner;
    assert inner[..|inner| - 1] == text && inner[|inner| - 1] == '\n';
  }

  lemma PayloadReadsBack(payload: string)
    requires IsTight(payload)
    ensures Payload(ReplyText(payload)) == Some(payload)
  {
    var text := ReplyText(payload);
    assert text[0] == OPEN[0] == '<' && text[|text| - 1] == CLOSE[|CLOSE| - 1] == '>';
    TrimTight(text);
    var tail := "\n" + payload + "\n" + CLOSE;
    assert text == OPEN + tail && text[|OPEN|..] == tail;
    assert text[|text| - |CLOSE|..] == CLOSE && tail[|tail| - |CLOSE|..] == CLOSE;
    assert tail[..|tail| - |CLOSE|] == "\n" + payload + "\n";
    TrimTight(payload);
  }

  /** The answer as it is sent is read as an answer to its prompt. */
  lemma SentAnswerIsRead(id: string, question: string, answer: string, codec: Codec)
    requires id != "" && IsTight(codec.encode(id, question, answer))
    requires codec.decode(codec.encode(id, question, answer)) == Some([(id, answer)])
    ensures Answered(ReplyMessage(codec.encode(id, question, answer)), codec) == {id}
  {
    var payload := codec.encode(id, question, answer);
    PayloadReadsBack(payload);
    var item := ReplyMessage(payload);
    MessageReadsBack(payload);
    assert MessageText(item) == Some(ReplyText(payload));
  }

  lemma MessageReadsBack(payload: string)
    ensures MessageText(ReplyMessage(payload)) == Some(ReplyText(payload))
  {
    hide ReplyText;
    var part := Object(["type", "text"], [Text("text"), Text(ReplyText(payload))]);
    var item := ReplyMessage(payload);
    assert ["type", "text"][1..] == ["text"] && ["type", "content"][1..] == ["content"];
    assert IndexOf(["type", "text"], "type") == 0 && IndexOf(["type", "text"], "text") == 1 by { assert "type"[1] == 'y' && "text"[1] == 'e'; }
    assert IndexOf(["type", "content"], "type") == 0 && IndexOf(["type", "content"], "content") == 1 by { assert |"type"| != |"content"|; }
    assert Field(part, "type") == Text("text") && Field(part, "text") == Text(ReplyText(payload));
    assert Field(item, "type") == Text("userMessage") && ListAt(item, "content") == Some([part]);
    assert "steeringUserMessage"[0] != "userMessage"[0];
  }

  // ----- Where the open prompts go wrong ---------------------------------------------------------------------

  /** A turn, and in it a question of the agent. */
  function Turn(turn: string, items: seq<Json>): Json {
    Object(["id", "items"], [Text(turn), List(items)])
  }

  function Question(id: string, title: string): Json {
    Object(["type", "delivery", "id", "text"], [Text("agentMessage"), Text("async"), Text(id), Text(title)])
  }

  lemma QuestionAsks(id: string, turn: string, codec: Codec)
    requires id != ""
    ensures ItemPrompts(Question(id, "?"), turn, codec) == [Prompt(turn, id, "?", [])] && Answered(Question(id, "?"), codec) == {}
  {
    var names, q := ["type", "delivery", "id", "text"], Question(id, "?");
    assert names[1..] == ["delivery", "id", "text"] && names[1..][1..] == ["id", "text"] && names[1..][1..][1..] == ["text"];
    assert "type"[1] == 'y' && "text"[1] == 'e' && |"delivery"| != |"id"|;
    assert IndexOf(names, "type") == 0 && IndexOf(names, "delivery") == 1 && IndexOf(names, "id") == 2 && IndexOf(names, "text") == 3;
    assert Field(q, "type") == Text("agentMessage") && Field(q, "delivery") == Text("async");
    assert Scalar(Field(q, "id")) == id && Field(q, "text") == Text("?");
    assert "questions" !in names by { assert |"questions"| == 9; }
    assert ListAt(q, "questions").None?;
    assert "agentMessage"[0] == 'a' && "userMessage"[0] == 'u' && "steeringUserMessage"[0] == 's';
    OneTitle("?", turn, id);
  }

  lemma OneTitle(title: string, turn: string, id: string)
    requires IsTight(title)
    ensures QuestionPrompt(Object(["title"], [Text(title)]), turn, id) == [Prompt(turn, id, title, [])]
  {
    var q := Object(["title"], [Text(title)]);
    TrimTight(title);
    assert IndexOf(["title"], "title") == 0;
    assert |"isSecret"| == 8 && |"options"| == 7 && |"title"| == 5;
    assert Field(q, "isSecret") == Null && ListAt(q, "options").None? && Field(q, "title") == Text(title);
  }

  lemma ReplyAsksNothing(payload: string, turn: string, codec: Codec)
    ensures ItemPrompts(ReplyMessage(payload), turn, codec) == []
  {
    assert IndexOf(["type", "content"], "type") == 0;
    assert Field(ReplyMessage(payload), "type") == Text("userMessage") by { hide ReplyText; }
    assert "agentMessage"[0] == 'a' && "userMessage"[0] == 'u';
  }

  lemma TurnFields(turn: string, items: seq<Json>)
    requires turn != ""
    ensures ListAt(Turn(turn, items), "items") == Some(items) && TurnOf(Turn(turn, items)) == turn && IsTurn(Turn(turn, items))
    ensures MessageText(Turn(turn, items)).None?
  {
    var names, v := ["id", "items"], Turn(turn, items);
    assert names[1..] == ["items"] && |"id"| == 2 && |"items"| == 5 && |"turnId"| == 6 && |"type"| == 4;
    assert IndexOf(names, "id") == 0 && IndexOf(names, "items") == 1;
    assert Field(v, "turnId") == Null && Field(v, "id") == Text(turn) && Field(v, "type") == Null;
  }

  predicate Understands(codec: Codec, id: string) {
    IsTight(codec.encode(id, "?", "!")) && codec.decode(codec.encode(id, "?", "!")) == Some([(id, "!")])
  }

  /** A turn that asks one question, and holds the accepted reply to it. */
  function Settled(turn: string, id: string, codec: Codec): Json {
    Turn(turn, [Question(id, "?"), ReplyMessage(codec.encode(id, "?", "!"))])
  }

  lemma TurnHolds(turn: string, items: seq<Json>, codec: Codec)
    requires turn != ""
    ensures var v := Turn(turn, items);
      && Prompts(v, codec) == PromptsIn(items, turn, codec) && Answers(v, codec) == Replies(items, codec) == AcceptedReplies(v, codec)
      && Answered(v, codec) == {}
  {
    TurnFields(turn, items);
  }

  lemma TwoItems(a: Json, b: Json, turn: string, codec: Codec)
    ensures PromptsIn([a, b], turn, codec) == ItemPrompts(a, turn, codec) + ItemPrompts(b, turn, codec)
    ensures Replies([a, b], codec) == Answered(a, codec) + Answered(b, codec)
    ensures PromptsIn([a], turn, codec) == ItemPrompts(a, turn, codec) && Replies([a], codec) == Answered(a, codec)
  {
    hide ItemPrompts, Answered;
    assert [a, b][..1] == [a] && [a][..0] == [];
    assert PromptsIn([a], turn, codec) == PromptsIn([], turn, codec) + ItemPrompts(a, turn, codec);
    assert Replies([a], codec) == Replies([], codec) + Answered(a, codec);
  }

  lemma SettledTurn(turn: string, id: string, codec: Codec)
    requires turn != "" && id != "" && Understands(codec, id)
    ensures var v := Settled(turn, id, codec);
      && Prompts(v, codec) == [Prompt(turn, id, "?", [])] && Answers(v, codec) == {id} == AcceptedReplies(v, codec)
      && Answered(v, codec) == {}
  {
    var payload := codec.encode(id, "?", "!");
    var question, reply := Question(id, "?"), ReplyMessage(payload);
    QuestionAsks(id, turn, codec);
    ReplyAsksNothing(payload, turn, codec);
    SentAnswerIsRead(id, "?", "!", codec);
    TurnHolds(turn, [question, reply], codec);
    TwoItems(question, reply, turn, codec);
    hide Turn, Question, ReplyMessage, Prompts, Answers, AcceptedReplies, Answered, PromptsIn, Replies, ItemPrompts, IsTight;
  }

  /**
   Prompts are searched for below a list of items that belongs to no turn, answers
   are not.
   */
  lemma AnswersBelowTurnlessItems(inner: Json, codec: Codec)
    ensures var v := Object(["items"], [List([inner])]);
      && TurnOf(v) == "" && Prompts(v, codec) == Prompts(inner, codec) && Answers(v, codec) == Answered(inner, codec)
      && AcceptedReplies(v, codec) == Answered(inner, codec) + AcceptedReplies(inner, codec)
  {
    var v := Object(["items"], [List([inner])]);
    assert |"turnId"| != |"items"| && |"id"| != |"items"|;
    assert ListAt(v, "items") == Some([inner]);
    assert Scalar(Field(v, "turnId")) == "" && Scalar(Field(v, "id")) == "";
    assert [List([inner])][1..] == [] && [inner][1..] == [];
    assert PromptsOf([inner], codec) == Prompts(inner, codec) + [];
    assert Prompts(List([inner]), codec) == Prompts(inner, codec);
    assert PromptsOf([List([inner])], codec) == Prompts(List([inner]), codec) + [];
    assert [inner][..0] == [];
    assert Replies([inner], codec) == Replies([], codec) + Answered(inner, codec);
    assert AcceptedOf([inner], codec) == AcceptedReplies(inner, codec) + AcceptedOf([], codec);
    assert AcceptedReplies(List([inner]), codec) == AcceptedOf([inner], codec);
    assert AcceptedOf([List([inner])], codec) == AcceptedReplies(List([inner]), codec) + AcceptedOf([], codec);
  }

  /** A settled turn among items of no turn. */
  function Nested(codec: Codec): Json {
    Object(["items"], [List([Settled("t", "p", codec)])])
  }

  lemma NestedHolds(codec: Codec)
    requires Understands(codec, "p")
    ensures var v := Nested(codec);
      Prompts(v, codec) == [Prompt("t", "p", "?", [])] && Answers(v, codec) == {} && AcceptedReplies(v, codec) == {"p"}
  {
    SettledTurn("t", "p", codec);
    AnswersBelowTurnlessItems(Settled("t", "p", codec), codec);
    hide Settled, Prompts, Answers, AcceptedReplies, Answered, Understands, TurnOf;
  }

  lemma FoundOrNot(v: Json, id: string, codec: Codec)
    ensures OnlyBelowTurnless(v, id, codec) <==> id in AcceptedReplies(v, codec) && id !in Answers(v, codec)
  {
    AnswersAreOutside(v, id, codec);
    AcceptedAreAnswered(v, id, codec);
    hide Answers, AcceptedReplies, IsAnswered, AnsweredWithin;
  }

  /** So there a prompt stays open although its reply was accepted. */
  lemma AnsweredPromptStaysOpen(codec: Codec)
    requires Understands(codec, "p")
    ensures exists v: Json, p: Prompt ::
      && p in Listed(v, false, codec) && OnlyBelowTurnless(v, p.id, codec)
      && Listed(v, false, codec) != Open(Listed(v, true, codec), AcceptedReplies(v, codec))
  {
    var p, v := Prompt("t", "p", "?", []), Nested(codec);
    NestedHolds(codec);
    FoundOrNot(v, "p", codec);
    OneListed(p, {}, codec);
    hide Answers, AcceptedReplies, Prompts, Nested, OnlyBelowTurnless, Select, Open, Understands;
    assert Listed(v, false, codec) == [p] && p in [p];
    OpenMember(Listed(v, true, codec), AcceptedReplies(v, codec));
  }

  lemma OneListed(p: Prompt, hidden: set<string>, codec: Codec)
    requires p.id !in hidden
    ensures Select([p], hidden, {}, codec) == [p]
  {
    assert [p][1..] == [];
  }

  /** A settled turn whose id has a NUL, and an open one that shares its prompt's key. */
  function Colliding(codec: Codec): Json {
    List([Settled("a\0b", "c", codec), Turn("a", [Question("b\0c", "?")])])
  }

  lemma CollidingHolds(codec: Codec)
    requires Understands(codec, "c")
    ensures var v := Colliding(codec);
      && Prompts(v, codec) == [Prompt("a\0b", "c", "?", [])] + [Prompt("a", "b\0c", "?", [])]
      && Answers(v, codec) == {"c"} == AcceptedReplies(v, codec)
  {
    SettledTurn("a\0b", "c", codec);
    OpenTurn("a", "b\0c", codec);
    InTwo(Settled("a\0b", "c", codec), Turn("a", [Question("b\0c", "?")]), codec);
    hide Settled, Turn, Question, Prompts, Answers, AcceptedReplies, Answered, Understands;
  }

  /** There an unanswered prompt is not among all prompts, but is open once the other one is answered. */
  lemma NulTurnsCanCollide(codec: Codec)
    requires Understands(codec, "c")
    ensures exists v: Json, p: Prompt ::
      && Listed(v, false, codec) == [p] && p.id !in AcceptedReplies(v, codec) && p !in Listed(v, true, codec)
      && Listed(v, false, codec) != Open(Listed(v, true, codec), AcceptedReplies(v, codec))
  {
    var p, q, v := Prompt("a\0b", "c", "?", []), Prompt("a", "b\0c", "?", []), Colliding(codec);
    CollidingHolds(codec);
    assert |p.id| == 1 && |q.id| == 3;
    assert KeyText(p) == "a\0b\0c" == KeyText(q);
    SelectPair(p, q, codec);
    hide Answers, AcceptedReplies, Prompts, Colliding, Select, Open, Understands, KeyOf, KeyText;
    assert Listed(v, false, codec) == [q] && Listed(v, true, codec) == [p];
    OpenMember(Listed(v, true, codec), AcceptedReplies(v, codec));
    assert q !in Open([p], {"c"});
  }

  lemma OpenTurn(turn: string, id: string, codec: Codec)
    requires turn != "" && id != ""
    ensures var v := Turn(turn, [Question(id, "?")]);
      Prompts(v, codec) == [Prompt(turn, id, "?", [])] && Answers(v, codec) == {} == AcceptedReplies(v, codec)
  {
    var question := Question(id, "?");
    QuestionAsks(id, turn, codec);
    TurnHolds(turn, [question], codec);
    TwoItems(question, question, turn, codec);
    hide *;
  }

  lemma InTwo(a: Json, b: Json, codec: Codec)
    ensures var v := List([a, b]);
      && Prompts(v, codec) == Prompts(a, codec) + Prompts(b, codec) && Answers(v, codec) == Answers(a, codec) + Answers(b, codec)
      && AcceptedReplies(v, codec) == AcceptedReplies(a, codec) + AcceptedReplies(b, codec)
  {
    assert [a, b][1..] == [b] && [b][1..] == [];
    assert PromptsOf([b], codec) == Prompts(b, codec) + PromptsOf([], codec);
    assert PromptsOf([a, b], codec) == Prompts(a, codec) + PromptsOf([b], codec);
    assert AnswersOf([b], codec) == Answers(b, codec) + AnswersOf([], codec);
    assert AnswersOf([a, b], codec) == Answers(a, codec) + AnswersOf([b], codec);
    assert AcceptedOf([b], codec) == AcceptedReplies(b, codec) + AcceptedOf([], codec);
    assert AcceptedOf([a, b], codec) == AcceptedReplies(a, codec) + AcceptedOf([b], codec);
  }

  lemma SelectPair(p: Prompt, q: Prompt, codec: Codec)
    requires KeyText(p) == KeyText(q) && p.id != q.id
    ensures Select([p] + [q], {p.id}, {}, codec) == [q] && Select([p] + [q], {}, {}, codec) == [p]
  {
    var key := KeyOf(p, codec);
    assert ([p] + [q])[1..] == [q] && [q][1..] == [];
    assert KeyOf(q, codec) == key;
    assert Select([q], {p.id}, {}, codec) == [q] + Select([], {p.id}, {key}, codec);
    assert Select([q], {}, {key}, codec) == Select([], {}, {key}, codec);
    assert Select([p] + [q], {}, {}, codec) == [p] + Select([q], {}, {} + {key}, codec);
  }
}

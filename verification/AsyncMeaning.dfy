/**
 What is a prompt and what is an answer, told by the fields of a state: which prompts
 are asked in it, in which order, which of them are listed, and which ids a message
 answers.
 */
module AsyncMeaning {
  import opened Prelude
  import opened AsyncInputs

  // ----- Fields -----------------------------------------------------------------------

  /** The value stands under the first entry of this name. */
  predicate Stands(v: Json, name: string, x: Json) {
    v.Object? && exists i | 0 <= i < |v.names| :: i < |v.values| && v.names[i] == name && name !in v.names[..i] && v.values[i] == x
  }

  lemma {:induction false} IndexIsFirst(names: seq<string>, name: string)
    ensures name in names ==> IndexOf(names, name) < |names| && names[IndexOf(names, name)] == name
    ensures forall i | 0 <= i < |names| && i < IndexOf(names, name) :: names[i] != name
    ensures name !in names ==> IndexOf(names, name) == |names|
  {
    if names != [] && names[0] != name {
      IndexIsFirst(names[1..], name);
      assert names == [names[0]] + names[1..];
    }
  }

  /** A field that is there has the value that stands under its name; any other is null. */
  lemma FieldMeans(v: Json, name: string)
    ensures forall x :: Stands(v, name, x) ==> Field(v, name) == x
    ensures (forall x :: !Stands(v, name, x)) ==> Field(v, name) == Null
  {
    if v.Object? {
      IndexIsFirst(v.names, name);
      var n := IndexOf(v.names, name);
      assert forall i | 0 <= i < |v.names| && v.names[i] == name && name !in v.names[..i] :: i == n by {
        assert forall i | n < i <= |v.names| && n < |v.names| :: v.names[..i][n] == v.names[n];
      }
      if n < |v.values| && name in v.names { assert Stands(v, name, v.values[n]); }
      hide IndexOf;
    }
  }

  /** A text that is not empty, or a number, is an id. */
  predicate IsId(v: Json, id: string) {
    id != "" && (v == Text(id) || v == Number(id))
  }

  lemma ScalarIsId(v: Json, id: string)
    ensures IsId(v, id) <==> id != "" && Scalar(v) == id
  {
  }

  // ----- Questions ---------------------------------------------------------------------

  ghost predicate Ascends(at: seq<nat>) {
    forall j, k | 0 <= j < k < |at| :: at[j] < at[k]
  }

  predicate IsLabel(v: Json) {
    v.Text? && v.text != ""
  }

  /** The options are the texts of the list that are not empty, in order. */
  ghost predicate AreLabels(values: seq<Json>, options: seq<string>, at: seq<nat>) {
    && |at| == |options| && Ascends(at)
    && (forall k | 0 <= k < |at| :: at[k] < |values| && IsLabel(values[at[k]]) && options[k] == values[at[k]].text)
    && forall i: nat | i < |values| && IsLabel(values[i]) :: i in at
  }

  lemma {:induction false} OptionsAreLabels(values: seq<Json>) returns (at: seq<nat>)
    ensures AreLabels(values, Options(values), at)
  {
    at := [];
    if values != [] {
      var n := |values| - 1;
      at := OptionsAreLabels(values[..n]);
      LabelsOneMore(values, Options(values[..n]), at);
      if IsLabel(values[n]) { at := at + [n]; }
    }
  }

  lemma LabelsOneMore(values: seq<Json>, options: seq<string>, at: seq<nat>)
    requires values != [] && AreLabels(values[..|values| - 1], options, at)
    ensures var n := |values| - 1;
      if IsLabel(values[n]) then AreLabels(values, options + [values[n].text], at + [n]) else AreLabels(values, options, at)
  {
    var n := |values| - 1;
    assert forall i | 0 <= i < n :: values[..n][i] == values[i];
    if IsLabel(values[n]) {
      var more := at + [n];
      assert more[|at|] == n;
      assert forall k | 0 <= k < |at| :: more[k] == at[k] && at[k] < n;
      forall i: nat | i < |values| && IsLabel(values[i]) ensures i in more {
        if i < n { assert i in at; }
      }
    }
  }

  lemma LabelsWithoutLast(values: seq<Json>, options: seq<string>, at: seq<nat>)
    requires values != [] && AreLabels(values, options, at)
    ensures var n, m := |values| - 1, |at| - 1;
      if IsLabel(values[n]) then m >= 0 && options[m] == values[n].text && AreLabels(values[..n], options[..m], at[..m])
      else AreLabels(values[..n], options, at)
  {
    var n, m := |values| - 1, |at| - 1;
    if IsLabel(values[n]) {
      assert n in at;
      assert at[m] == n by { assert forall k | 0 <= k < m :: at[k] < at[m]; }
      forall i: nat | i < n && IsLabel(values[..n][i]) ensures i in at[..m] {
        assert i in at;
        assert at == at[..m] + [n];
      }
      hide IsLabel;
    } else {
      assert forall k | 0 <= k < |at| :: at[k] != n;
    }
  }

  /** There is one list of labels at most. */
  lemma {:induction false} LabelsAreUnique(values: seq<Json>, options: seq<string>, at: seq<nat>)
    requires AreLabels(values, options, at)
    ensures options == Options(values)
  {
    if values == [] {
      assert |at| == 0;
    } else {
      var n, m := |values| - 1, |at| - 1;
      LabelsWithoutLast(values, options, at);
      if IsLabel(values[n]) {
        LabelsAreUnique(values[..n], options[..m], at[..m]);
        assert options == options[..m] + [options[m]];
      } else {
        LabelsAreUnique(values[..n], options, at);
      }
      hide AreLabels;
    }
  }

  /** The labels under "options"; without such a list there are none. */
  ghost predicate HasOptions(q: Json, options: seq<string>) {
    if Field(q, "options").List? then exists at :: AreLabels(Field(q, "options").items, options, at) else options == []
  }

  lemma OptionsMean(q: Json, options: seq<string>)
    ensures HasOptions(q, options) <==> options == Options(ListAt(q, "options").GetOr([]))
  {
    if Field(q, "options").List? {
      var values := Field(q, "options").items;
      var at := OptionsAreLabels(values);
      if other :| AreLabels(values, options, other) { LabelsAreUnique(values, options, other); }
    }
  }

  /** A title that is not blank, on a question that is not secret. */
  ghost predicate IsAsked(q: Json, title: string, options: seq<string>) {
    && Field(q, "title") == Text(title) && (exists i | 0 <= i < |title| :: !IsSpace(title[i]))
    && Field(q, "isSecret") != Bool(true) && HasOptions(q, options)
  }

  lemma {:induction false} TrimLeftMeans(text: string)
    ensures TrimLeft(text) == "" <==> forall i | 0 <= i < |text| :: IsSpace(text[i])
    ensures TrimLeft(text) != "" ==> !IsSpace(TrimLeft(text)[0]) && |TrimLeft(text)| <= |text|
  {
    if text != "" && IsSpace(text[0]) {
      TrimLeftMeans(text[1..]);
      assert text == [text[0]] + text[1..];
    }
  }

  lemma {:induction false} TrimRightKeepsFirst(text: string)
    requires text != "" && !IsSpace(text[0])
    ensures TrimRight(text) != "" && TrimRight(text)[0] == text[0]
  {
    if IsSpace(text[|text| - 1]) { TrimRightKeepsFirst(text[..|text| - 1]); }
  }

  lemma BlankMeans(text: string)
    ensures Trim(text) == "" <==> forall i | 0 <= i < |text| :: IsSpace(text[i])
  {
    TrimLeftMeans(text);
    if TrimLeft(text) != "" { TrimRightKeepsFirst(TrimLeft(text)); }
  }

  lemma QuestionMeans(q: Json, turn: string, id: string, p: Prompt)
    ensures p in QuestionPrompt(q, turn, id) <==> p.turn == turn && p.id == id && IsAsked(q, p.title, p.options)
  {
    OptionsMean(q, p.options);
    BlankMeans(p.title);
    BlankMeans("");
    hide HasOptions, Options, Trim, IsSpace, Field;
  }

  /** The questions of one item come in the order of its list. */
  lemma QuestionsInOrder(questions: seq<Json>, last: Json, turn: string, source: string, codec: Codec)
    ensures QuestionPrompts(questions + [last], turn, source, codec)
      == QuestionPrompts(questions, turn, source, codec) + QuestionPrompt(last, turn, codec.itemId(source, |questions|))
  {
    assert (questions + [last])[..|questions|] == questions;
  }

  ghost predicate SomeAsks(questions: seq<Json>, turn: string, source: string, codec: Codec, p: Prompt) {
    exists i: nat | i < |questions| :: p in QuestionPrompt(questions[i], turn, codec.itemId(source, i))
  }

  lemma SomeAsksSnoc(questions: seq<Json>, last: Json, turn: string, source: string, codec: Codec, p: Prompt)
    ensures SomeAsks(questions + [last], turn, source, codec, p)
      <==> SomeAsks(questions, turn, source, codec, p) || p in QuestionPrompt(last, turn, codec.itemId(source, |questions|))
  {
    hide QuestionPrompt;
    var all, n := questions + [last], |questions|;
    assert all[n] == last;
    if i: nat :| i < n && p in QuestionPrompt(questions[i], turn, codec.itemId(source, i)) { assert all[i] == questions[i]; }
    if i: nat :| i < |all| && p in QuestionPrompt(all[i], turn, codec.itemId(source, i)) { assert i < n ==> all[i] == questions[i]; }
  }

  lemma {:induction false} QuestionsMean(questions: seq<Json>, turn: string, source: string, codec: Codec, p: Prompt)
    ensures p in QuestionPrompts(questions, turn, source, codec) <==> SomeAsks(questions, turn, source, codec, p)
  {
    if questions != [] {
      var init, last := questions[..|questions| - 1], questions[|questions| - 1];
      assert questions == init + [last];
      hide QuestionPrompts, QuestionPrompt, SomeAsks;
      QuestionsMean(init, turn, source, codec, p);
      QuestionsInOrder(init, last, turn, source, codec);
      SomeAsksSnoc(init, last, turn, source, codec, p);
    }
  }

  // ----- Items -----------------------------------------------------------------------------

  /** An asynchronous message of the agent, of this id. */
  predicate IsQuestioner(item: Json, source: string) {
    Field(item, "type") == Text("agentMessage") && Field(item, "delivery") == Text("async") && IsId(Field(item, "id"), source)
  }

  predicate HasQuestions(item: Json) {
    Field(item, "questions").List? && Field(item, "questions").items != []
  }

  /** The item asks by its text, as itself, or one question of its list, by position. */
  ghost predicate Asks(item: Json, source: string, p: Prompt, codec: Codec) {
    if HasQuestions(item) then
      exists i: nat | i < |Field(item, "questions").items| ::
        p.id == codec.itemId(source, i) && IsAsked(Field(item, "questions").items[i], p.title, p.options)
    else
      p.id == source && p.options == [] && Field(item, "text") == Text(p.title) && exists i | 0 <= i < |p.title| :: !IsSpace(p.title[i])
  }

  lemma TextQuestion(text: Json)
    ensures var q := Object(["title"], [text]);
      Field(q, "title") == text && Field(q, "isSecret") == Null && Field(q, "options") == Null
  {
    assert IndexOf(["title"], "title") == 0;
    assert |"isSecret"| == 8 && |"options"| == 7 && |"title"| == 5;
  }

  lemma ItemAsks(item: Json, turn: string, source: string, p: Prompt, codec: Codec)
    requires IsQuestioner(item, source)
    ensures p in ItemPrompts(item, turn, codec) <==> p.turn == turn && Asks(item, source, p, codec)
  {
    ScalarIsId(Field(item, "id"), source);
    var questions := ListAt(item, "questions").GetOr([]);
    hide Field, QuestionPrompts, QuestionPrompt, IsAsked, Scalar, IsSpace;
    if HasQuestions(item) {
      QuestionsMean(questions, turn, source, codec, p);
      forall i: nat | i < |questions|
        ensures p in QuestionPrompt(questions[i], turn, codec.itemId(source, i))
          <==> p.turn == turn && p.id == codec.itemId(source, i) && IsAsked(questions[i], p.title, p.options)
      {
        QuestionMeans(questions[i], turn, codec.itemId(source, i), p);
      }
    } else {
      TextAsks(Field(item, "text"), turn, source, p);
    }
  }

  lemma TextAsks(text: Json, turn: string, source: string, p: Prompt)
    ensures p in QuestionPrompt(Object(["title"], [text]), turn, source)
      <==> p.turn == turn && p.id == source && p.options == [] && text == Text(p.title) && exists i | 0 <= i < |p.title| :: !IsSpace(p.title[i])
  {
    QuestionMeans(Object(["title"], [text]), turn, source, p);
    TextQuestion(text);
    hide Field, QuestionPrompt;
  }

  ghost predicate ItemHolds(item: Json, p: Prompt, codec: Codec) {
    exists source :: IsQuestioner(item, source) && Asks(item, source, p, codec)
  }

  lemma ItemMeans(item: Json, turn: string, p: Prompt, codec: Codec)
    ensures p in ItemPrompts(item, turn, codec) <==> p.turn == turn && ItemHolds(item, p, codec)
  {
    var source := Scalar(Field(item, "id"));
    hide Asks;
    if IsQuestioner(item, source) {
      ItemAsks(item, turn, source, p, codec);
      forall other | IsQuestioner(item, other) ensures other == source { ScalarIsId(Field(item, "id"), other); }
    } else {
      ScalarIsId(Field(item, "id"), source);
      forall other ensures !IsQuestioner(item, other) { ScalarIsId(Field(item, "id"), other); }
    }
  }

  lemma ItemsSnoc(items: seq<Json>, last: Json, turn: string, codec: Codec)
    ensures PromptsIn(items + [last], turn, codec) == PromptsIn(items, turn, codec) + ItemPrompts(last, turn, codec)
  {
    hide ItemPrompts;
    assert (items + [last])[..|items|] == items;
  }

  ghost predicate SomeHolds(items: seq<Json>, p: Prompt, codec: Codec) {
    exists i | 0 <= i < |items| :: ItemHolds(items[i], p, codec)
  }

  lemma SomeHoldsSnoc(items: seq<Json>, last: Json, p: Prompt, codec: Codec)
    ensures SomeHolds(items + [last], p, codec) <==> SomeHolds(items, p, codec) || ItemHolds(last, p, codec)
  {
    hide ItemHolds;
    var all, n := items + [last], |items|;
    assert all[n] == last;
    if i :| 0 <= i < n && ItemHolds(items[i], p, codec) { assert all[i] == items[i]; }
    if i :| 0 <= i < |all| && ItemHolds(all[i], p, codec) { assert i < n ==> all[i] == items[i]; }
  }

  lemma {:induction false} ItemsMean(items: seq<Json>, turn: string, codec: Codec, p: Prompt)
    ensures p in PromptsIn(items, turn, codec) <==> p.turn == turn && SomeHolds(items, p, codec)
  {
    if items != [] {
      var init, last := items[..|items| - 1], items[|items| - 1];
      assert items == init + [last];
      hide PromptsIn, ItemPrompts, ItemHolds, SomeHolds;
      ItemsMean(init, turn, codec, p);
      ItemMeans(last, turn, p, codec);
      ItemsSnoc(init, last, turn, codec);
      SomeHoldsSnoc(init, last, p, codec);
    }
  }

  // ----- States --------------------------------------------------------------------------------

  /** A turn of this id: by its "turnId", and by its "id" if it has no other. */
  predicate IsTurnOf(v: Json, turn: string) {
    || IsId(Field(v, "turnId"), turn)
    || (IsId(Field(v, "id"), turn) && Scalarless(Field(v, "turnId")))
  }

  predicate Scalarless(v: Json) {
    (v.Text? ==> v.text == "") && (v.Number? ==> v.digits == "")
  }

  lemma TurnMeans(v: Json, turn: string)
    ensures IsTurnOf(v, turn) <==> turn != "" && TurnOf(v) == turn
  {
    ScalarIsId(Field(v, "turnId"), turn);
    ScalarIsId(Field(v, "id"), turn);
    hide Field;
  }

  /** A turn somewhere in the state, not within another one, has an item that asks this. */
  ghost predicate IsPrompt(v: Json, p: Prompt, codec: Codec) {
    exists x :: Reached(x, v, IsTurn) && HasItems(x) && TurnAsks(x, p, codec)
  }

  ghost predicate TurnAsks(x: Json, p: Prompt, codec: Codec)
    requires HasItems(x)
  {
    IsTurnOf(x, p.turn) && SomeHolds(Field(x, "items").items, p, codec)
  }

  lemma TurnsAsk(x: Json, p: Prompt, codec: Codec)
    requires HasItems(x)
    ensures TurnAsks(x, p, codec) <==> TurnOf(x) != "" && p in PromptsIn(ListAt(x, "items").value, TurnOf(x), codec)
  {
    ItemsMean(Field(x, "items").items, TurnOf(x), codec, p);
    TurnMeans(x, p.turn);
    hide PromptsIn, TurnOf, IsTurnOf, SomeHolds, Field;
  }

  /** The prompts of a state are exactly what its turns ask. */
  lemma {:induction false} PromptsAreAsked(v: Json, p: Prompt, codec: Codec)
    ensures p in Prompts(v, codec) <==> IsPrompt(v, p, codec)
    decreases v, 1
  {
    if IsTurn(v) {
      TurnsAsk(v, p, codec);
      assert forall x :: Reached(x, v, IsTurn) <==> x == v;
      hide TurnAsks, PromptsIn, TurnOf, ListAt;
    } else {
      match v
      case Object(_, values) => PromptsOfChildren(v, values, p, codec);
      case List(items) => PromptsOfChildren(v, items, p, codec);
      case _ => assert forall x :: Reached(x, v, IsTurn) <==> x == v;
    }
  }

  lemma {:induction false} PromptsOfChildren(v: Json, values: seq<Json>, p: Prompt, codec: Codec)
    requires !IsTurn(v) && ((v.Object? && values == v.values) || (v.List? && values == v.items))
    requires forall i | 0 <= i < |values| :: values[i] < v
    ensures p in PromptsOf(values, codec) <==> IsPrompt(v, p, codec)
    decreases v, 0
  {
    InPromptsOf(values, p, codec);
    forall i | 0 <= i < |values| ensures p in Prompts(values[i], codec) <==> IsPrompt(values[i], p, codec) {
      PromptsAreAsked(values[i], p, codec);
    }
    if HasItems(v) { TurnsAsk(v, p, codec); }
    hide Prompts, HasItems, IsTurn, TurnAsks;
    forall x, i | 0 <= i < |values| && Reached(x, values[i], IsTurn) ensures Reached(x, v, IsTurn) { Below(x, v, IsTurn, values, i); }
  }

  lemma {:induction false} InPromptsOf(values: seq<Json>, p: Prompt, codec: Codec)
    ensures p in PromptsOf(values, codec) <==> exists i | 0 <= i < |values| :: p in Prompts(values[i], codec)
  {
    if values != [] {
      InPromptsOf(values[1..], p, codec);
      hide Prompts;
      assert forall i | 0 < i < |values| :: values[i] == values[1..][i - 1];
      assert forall i | 0 <= i < |values| - 1 :: values[1..][i] == values[i + 1];
    }
  }

  // ----- Order -----------------------------------------------------------------------------------

  /** Prompts come in the order of the document: what stands earlier is asked earlier. */
  lemma {:induction false} InDocumentOrder(a: seq<Json>, b: seq<Json>, turn: string, codec: Codec)
    ensures Prompts(List(a + b), codec) == Prompts(List(a), codec) + Prompts(List(b), codec)
    ensures PromptsIn(a + b, turn, codec) == PromptsIn(a, turn, codec) + PromptsIn(b, turn, codec)
    ensures forall v: Json :: v.Object? && v.values == a + b && !IsTurn(v) ==> Prompts(v, codec) == Prompts(List(a), codec) + Prompts(List(b), codec)
  {
    ValuesInOrder(a, b, codec);
    ItemsInOrder(a, b, turn, codec);
    hide PromptsOf, PromptsIn, ListAt, TurnOf;
  }

  lemma {:induction false} ValuesInOrder(a: seq<Json>, b: seq<Json>, codec: Codec)
    ensures PromptsOf(a + b, codec) == PromptsOf(a, codec) + PromptsOf(b, codec)
  {
    if a == [] {
      assert a + b == b;
    } else {
      assert (a + b)[0] == a[0] && (a + b)[1..] == a[1..] + b;
      ValuesInOrder(a[1..], b, codec);
      Assoc(Prompts(a[0], codec), PromptsOf(a[1..], codec), PromptsOf(b, codec));
      hide Prompts;
    }
  }

  lemma {:induction false} ItemsInOrder(a: seq<Json>, b: seq<Json>, turn: string, codec: Codec)
    ensures PromptsIn(a + b, turn, codec) == PromptsIn(a, turn, codec) + PromptsIn(b, turn, codec)
  {
    if b == [] {
      assert a + b == a;
    } else {
      var init, last := b[..|b| - 1], b[|b| - 1];
      assert b == init + [last] && a + b == a + init + [last];
      ItemsInOrder(a, init, turn, codec);
      ItemsSnoc(a + init, last, turn, codec);
      ItemsSnoc(init, last, turn, codec);
      hide PromptsIn, ItemPrompts;
      Assoc(PromptsIn(a, turn, codec), PromptsIn(init, turn, codec), ItemPrompts(last, turn, codec));
    }
  }

  // ----- Which prompts are listed -------------------------------------------------------------------

  /** Not hidden, and the first of those not hidden with its key. */
  ghost predicate LeadsAt(prompts: seq<Prompt>, i: nat, hidden: set<string>, codec: Codec)
    requires i < |prompts|
  {
    prompts[i].id !in hidden && forall j | 0 <= j < i && prompts[j].id !in hidden :: KeyOf(prompts[j], codec) != KeyOf(prompts[i], codec)
  }

  /** The list is what stands at exactly these positions, in order. */
  ghost predicate StandsAt(listed: seq<Prompt>, prompts: seq<Prompt>, at: seq<nat>) {
    |at| == |listed| && Ascends(at) && forall k | 0 <= k < |at| :: at[k] < |prompts| && listed[k] == prompts[at[k]]
  }

  ghost predicate Leads(prompts: seq<Prompt>, at: seq<nat>, hidden: set<string>, codec: Codec) {
    forall i: nat | i < |prompts| :: i in at <==> LeadsAt(prompts, i, hidden, codec)
  }

  lemma StandsGrows(listed: seq<Prompt>, prompts: seq<Prompt>, at: seq<nat>, last: Prompt)
    requires StandsAt(listed, prompts, at)
    ensures StandsAt(listed, prompts + [last], at) && StandsAt(listed + [last], prompts + [last], at + [|prompts|])
  {
    var more := at + [|prompts|];
    assert forall k | 0 <= k < |at| :: more[k] == at[k] && at[k] < |prompts| && (prompts + [last])[at[k]] == prompts[at[k]];
  }

  lemma SelectSnoc(prompts: seq<Prompt>, last: Prompt, hidden: set<string>, codec: Codec)
    ensures var listed := Select(prompts, hidden, {}, codec);
      Select(prompts + [last], hidden, {}, codec)
        == if last.id !in hidden && KeyOf(last, codec) !in Keys(listed, codec) then listed + [last] else listed
  {
    var listed := Select(prompts, hidden, {}, codec);
    SelectInParts(prompts, [last], hidden, {}, codec);
    SelectOne(last, hidden, {} + Keys(listed, codec), codec);
    hide Select, Keys, KeyOf;
    assert {} + Keys(listed, codec) == Keys(listed, codec);
    assert listed + [] == listed;
  }

  /** Of the prompts that are not hidden, the first of each key is listed, and in order. */
  lemma {:induction false} FirstAreListed(prompts: seq<Prompt>, hidden: set<string>, codec: Codec) returns (at: seq<nat>)
    ensures StandsAt(Select(prompts, hidden, {}, codec), prompts, at) && Leads(prompts, at, hidden, codec)
  {
    at := [];
    if prompts != [] {
      var n := |prompts| - 1;
      var init, last := prompts[..n], prompts[n];
      assert prompts == init + [last];
      at := FirstAreListed(init, hidden, codec);
      assert forall k | 0 <= k < |at| :: at[k] < n;
      SelectSnoc(init, last, hidden, codec);
      KeysAreListed(init, hidden, codec, last);
      LeadsOneMore(prompts, hidden, codec);
      LeadersGrow(prompts, at, hidden, codec);
      StandsGrows(Select(init, hidden, {}, codec), init, at, last);
      hide Select, Keys, KeyOf, LeadsAt, Leads, StandsAt;
      if last.id !in hidden && KeyOf(last, codec) !in Keys(Select(init, hidden, {}, codec), codec) { at := at + [n]; }
    }
  }

  lemma SelectOne(p: Prompt, hidden: set<string>, seen: set<string>, codec: Codec)
    ensures Select([p], hidden, seen, codec) == if p.id !in hidden && KeyOf(p, codec) !in seen then [p] else []
  {
    assert [p][1..] == [];
  }

  /** The keys that are listed are those of all prompts that are not hidden. */
  lemma KeysAreListed(prompts: seq<Prompt>, hidden: set<string>, codec: Codec, q: Prompt)
    ensures KeyOf(q, codec) in Keys(Select(prompts, hidden, {}, codec), codec)
      <==> exists i | 0 <= i < |prompts| :: prompts[i].id !in hidden && KeyOf(prompts[i], codec) == KeyOf(q, codec)
  {
    var listed := Select(prompts, hidden, {}, codec);
    RequestIdsNeverRepeat(prompts, hidden, {}, codec);
    hide Select, KeyOf;
    if KeyOf(q, codec) in Keys(listed, codec) {
      var p :| p in listed && KeyOf(p, codec) == KeyOf(q, codec);
      var i :| 0 <= i < |prompts| && prompts[i] == p;
    }
    if i :| 0 <= i < |prompts| && prompts[i].id !in hidden && KeyOf(prompts[i], codec) == KeyOf(q, codec) {
      SelectCovers(prompts, hidden, {}, codec, prompts[i]);
    }
  }

  lemma LeadsOneMore(prompts: seq<Prompt>, hidden: set<string>, codec: Codec)
    requires prompts != []
    ensures var n := |prompts| - 1;
      (forall i: nat | i < n :: LeadsAt(prompts, i, hidden, codec) <==> LeadsAt(prompts[..n], i, hidden, codec))
      && (LeadsAt(prompts, n, hidden, codec) <==>
            prompts[n].id !in hidden
            && !exists i | 0 <= i < n :: prompts[..n][i].id !in hidden && KeyOf(prompts[..n][i], codec) == KeyOf(prompts[n], codec))
  {
    hide KeyOf;
    var n := |prompts| - 1;
    assert forall i | 0 <= i < n :: prompts[..n][i] == prompts[i];
  }

  lemma LeadersGrow(prompts: seq<Prompt>, at: seq<nat>, hidden: set<string>, codec: Codec)
    requires prompts != [] && Leads(prompts[..|prompts| - 1], at, hidden, codec) && forall k | 0 <= k < |at| :: at[k] < |prompts| - 1
    ensures var n := |prompts| - 1;
      if LeadsAt(prompts, n, hidden, codec) then Leads(prompts, at + [n], hidden, codec) else Leads(prompts, at, hidden, codec)
  {
    var n := |prompts| - 1;
    LeadsOneMore(prompts, hidden, codec);
    hide LeadsAt;
    assert forall i | i in at :: i < n;
    assert forall i: nat :: i in at + [n] <==> i in at || i == n;
  }

  // ----- Finding a prompt ------------------------------------------------------------------------------

  lemma KeysAreMarked(p: Prompt, codec: Codec)
    ensures HasPrefix(KeyOf(p, codec), "async_")
  {
    assert KeyOf(p, codec)[..6] == "async_";
  }

  /** A text that is the key of an open prompt finds exactly that prompt; nothing else finds one. */
  lemma FindMeans(v: Json, ref: Ref, p: Prompt, codec: Codec)
    ensures Find(v, ref, codec) == Some(p) <==> p in Listed(v, false, codec) && ref == TextRef(KeyOf(p, codec))
  {
    var listed := Listed(v, false, codec);
    FoundIsListed(listed, ref, codec);
    RequestIdsNeverRepeat(Prompts(v, codec), Answers(v, codec), {}, codec);
    KeysAreMarked(p, codec);
    hide Select, Prompts, Answers, FindIn, KeyOf;
    if p in listed && ref == TextRef(KeyOf(p, codec)) {
      var found := FindIn(listed, ref, codec).value;
      var i, j :| 0 <= i < |listed| && 0 <= j < |listed| && listed[i] == p && listed[j] == found;
      assert i == j;
    }
  }

  /** An answer was accepted exactly when it is to an open prompt of the target, and a message of the state answers that. */
  lemma AcceptedMeans(v: Json, target: Json, ref: Ref, codec: Codec)
    ensures Accepted(v, target, ref, codec)
      <==> exists p :: p in Listed(target, false, codec) && ref == TextRef(KeyOf(p, codec)) && AnsweredWithin(v, HasItems, p.id, codec)
  {
    forall p ensures Find(target, ref, codec) == Some(p) <==> p in Listed(target, false, codec) && ref == TextRef(KeyOf(p, codec)) {
      FindMeans(target, ref, p, codec);
    }
    forall id ensures id in Answers(v, codec) <==> AnsweredWithin(v, HasItems, id, codec) { AnswersAreOutside(v, id, codec); }
    hide Find, Listed, KeyOf, Answers, AnsweredWithin;
  }

  // ----- Answers -----------------------------------------------------------------------------------------

  /** A message of the user that consists of this text alone; one that steers a turn must be accepted. */
  predicate Says(item: Json, text: string) {
    || (Field(item, "type") == Text("userMessage") && IsOneText(Field(item, "content"), text))
    || (Field(item, "type") == Text("steeringUserMessage") && Field(item, "status") == Text("accepted") && IsOneText(Field(item, "input"), text))
  }

  predicate IsOneText(parts: Json, text: string) {
    parts.List? && |parts.items| == 1 && Field(parts.items[0], "type") == Text("text") && Field(parts.items[0], "text") == Text(text)
  }

  /** The text, but for white space around it and within, is this payload between the two marks. */
  ghost predicate Carries(text: string, payload: string) {
    exists body :: Trim(text) == OPEN + body + CLOSE && payload == Trim(body)
  }

  ghost predicate IsAnswerTo(item: Json, id: string, codec: Codec) {
    id != "" && exists text :: Says(item, text) && CarriesAnswer(text, id, codec)
  }

  predicate Names(answers: Option<seq<(string, string)>>, id: string) {
    answers.Some? && exists i | 0 <= i < |answers.value| :: answers.value[i].0 == id
  }

  lemma MessageMeans(item: Json, text: string)
    requires text != ""
    ensures MessageText(item) == Some(text) <==> Says(item, text)
  {
    assert "steeringUserMessage"[0] != "userMessage"[0];
    hide Field;
  }

  /** The marks do not overlap: one ends where it says so, and the other begins like nothing in it. */
  lemma MarksAreApart(text: string)
    requires OPEN <= text && HasSuffix(text, CLOSE)
    ensures |OPEN| + |CLOSE| <= |text|
  {
    OpenMark();
    assert CLOSE[0] == '<' && CLOSE[1] == '/' && |CLOSE| > 1;
    hide OPEN, CLOSE;
    Apart(text, OPEN, CLOSE);
  }

  lemma Apart(text: string, left: string, right: string)
    requires left <= text && HasSuffix(text, right) && |left| > 1 && |right| > 1
    requires left[1] != right[1] && forall i | 0 < i < |left| :: left[i] != right[0]
    ensures |left| + |right| <= |text|
  {
    var k := |text| - |right|;
    assert text[k] == right[0] && text[k + 1] == right[1] by { assert text[k..] == right; }
    assert forall i | 0 < i < |left| :: text[i] == left[i];
  }

  lemma OpenMark()
    ensures |OPEN| > 1 && OPEN[1] == 's' && forall i | 0 < i < |OPEN| :: OPEN[i] != '<'
  {
  }

  /** What stands between the two marks. */
  lemma BetweenMarks(text: string, left: string, right: string, body: string)
    requires text == left + body + right
    ensures left <= text && HasSuffix(text, right) && HasSuffix(text[|left|..], right)
    ensures text[|left|..][..|text[|left|..]| - |right|] == body
  {
    assert text[..|left|] == left && text[|text| - |right|..] == right;
    var tail := text[|left|..];
    assert tail == body + right;
    assert tail[|tail| - |right|..] == right && tail[..|tail| - |right|] == body;
  }

  lemma SplitAtMarks(text: string, left: string, right: string) returns (body: string)
    requires left <= text && HasSuffix(text, right) && |left| + |right| <= |text|
    ensures text == left + body + right
  {
    body := text[|left|..|text| - |right|];
    assert text == text[..|left|] + body + text[|text| - |right|..];
  }

  lemma PayloadMeans(text: string, payload: string)
    ensures Payload(text) == Some(payload) <==> Carries(text, payload)
  {
    var trimmed := Trim(text);
    hide Trim, HasSuffix, OPEN, CLOSE;
    if HasPrefix(trimmed, OPEN) && HasSuffix(trimmed, CLOSE) {
      MarksAreApart(trimmed);
      var body := SplitAtMarks(trimmed, OPEN, CLOSE);
      forall other | trimmed == OPEN + other + CLOSE
        ensures HasSuffix(trimmed[|OPEN|..], CLOSE) && other == trimmed[|OPEN|..][..|trimmed[|OPEN|..]| - |CLOSE|]
      {
        BetweenMarks(trimmed, OPEN, CLOSE, other);
      }
    } else {
      forall body ensures trimmed != OPEN + body + CLOSE {
        if trimmed == OPEN + body + CLOSE { BetweenMarks(trimmed, OPEN, CLOSE, body); }
      }
    }
  }

  lemma BlankHasNoPayload()
    ensures Payload("").None?
  {
  }

  lemma AnswersOfText(item: Json, text: string, id: string, codec: Codec)
    requires MessageText(item) == Some(text)
    ensures id in Answered(item, codec) <==>
      id != "" && Payload(text).Some? && Names(codec.decode(Payload(text).value), id)
  {
    hide MessageText, Payload;
    if Payload(text).Some? && codec.decode(Payload(text).value).Some? {
      var answers := codec.decode(Payload(text).value).value;
      if a :| a in answers && a.0 == id { var i :| 0 <= i < |answers| && answers[i] == a; }
      if i :| 0 <= i < |answers| && answers[i].0 == id { assert answers[i] in answers; }
    }
  }

  ghost predicate CarriesAnswer(text: string, id: string, codec: Codec) {
    exists payload :: Carries(text, payload) && Names(codec.decode(payload), id)
  }

  lemma CarriedMeans(text: string, id: string, codec: Codec)
    ensures CarriesAnswer(text, id, codec) <==> Payload(text).Some? && Names(codec.decode(Payload(text).value), id)
  {
    forall payload ensures Payload(text) == Some(payload) <==> Carries(text, payload) { PayloadMeans(text, payload); }
    hide Payload, Carries, Names;
  }

  /** A message answers an id exactly when it carries an answer to it. */
  lemma AnsweredMeans(item: Json, id: string, codec: Codec)
    ensures id in Answered(item, codec) <==> IsAnswerTo(item, id, codec)
  {
    var said := MessageText(item);
    forall text | text != "" ensures said == Some(text) <==> Says(item, text) { MessageMeans(item, text); }
    forall text ensures CarriesAnswer(text, id, codec) <==> Payload(text).Some? && Names(codec.decode(Payload(text).value), id) {
      CarriedMeans(text, id, codec);
    }
    BlankHasNoPayload();
    if said.Some? { AnswersOfText(item, said.value, id, codec); }
    hide MessageText, Payload, Says, CarriesAnswer, Names;
  }

  ghost predicate SomeAnswers(items: seq<Json>, id: string, codec: Codec) {
    exists i | 0 <= i < |items| :: IsAnswerTo(items[i], id, codec)
  }

  lemma SomeAnswersSnoc(items: seq<Json>, last: Json, id: string, codec: Codec)
    ensures SomeAnswers(items + [last], id, codec) <==> SomeAnswers(items, id, codec) || IsAnswerTo(last, id, codec)
  {
    hide IsAnswerTo;
    var all, n := items + [last], |items|;
    assert all[n] == last;
    if i :| 0 <= i < n && IsAnswerTo(items[i], id, codec) { assert all[i] == items[i]; }
    if i :| 0 <= i < |all| && IsAnswerTo(all[i], id, codec) { assert i < n ==> all[i] == items[i]; }
  }

  lemma {:induction false} RepliesMean(items: seq<Json>, id: string, codec: Codec)
    ensures id in Replies(items, codec) <==> SomeAnswers(items, id, codec)
  {
    if items != [] {
      var n := |items| - 1;
      RepliesMean(items[..n], id, codec);
      AnsweredMeans(items[n], id, codec);
      assert items == items[..n] + [items[n]];
      SomeAnswersSnoc(items[..n], items[n], id, codec);
      hide Answered, IsAnswerTo, SomeAnswers;
    }
  }

  /** The ids that the search finds are those that a message of an outermost list of items answers. */
  lemma AnswersMean(v: Json, id: string, codec: Codec)
    ensures id in Answers(v, codec) <==>
      exists x :: Reached(x, v, HasItems) && HasItems(x) && SomeAnswers(Field(x, "items").items, id, codec)
  {
    AnswersAreOutside(v, id, codec);
    forall x | HasItems(x) ensures id in Replies(ListAt(x, "items").value, codec) <==> SomeAnswers(Field(x, "items").items, id, codec) {
      RepliesMean(Field(x, "items").items, id, codec);
    }
    hide Answers, Replies, SomeAnswers, Reached;
  }
}

/** The Cursor adapter: a completed call puts its result on the first call recorded under its id. */
module Cursor {
  import opened Prelude
  import opened Json
  import opened ErrorTypes
  import opened TurnOutput
  import opened ToolCalls

  function Apply(calls: seq<Call>, a: Action): seq<Call> {
    match a
    case Record(r) => calls + [CallOf(r)]
    case Attach(id, result) => WithResult(calls, First(calls, id), result)
  }

  function Applied(actions: seq<Action>): seq<Call> {
    if actions == [] then [] else Apply(Applied(actions[..|actions| - 1]), actions[|actions| - 1])
  }

  // ----- which result a call ends up with -----

  function LastResult(rest: seq<Action>, id: string): Option<Json> {
    if rest == [] then None
    else
      var a := rest[|rest| - 1];
      if a.Attach? && a.id == id then Some(a.result) else LastResult(rest[..|rest| - 1], id)
  }

  /** The first call of an id gets the last result for it; a call whose id was taken before gets none. */
  function Expected(actions: seq<Action>, taken: set<string>): seq<Call> {
    if actions == [] then []
    else
      var a, rest := actions[0], actions[1..];
      if a.Attach? then Expected(rest, taken)
      else
        var r := a.request;
        [CallOf(r).(result := if r.id in taken then None else LastResult(rest, r.id))] + Expected(rest, taken + {r.id})
  }

  lemma FirstCons(c: Call, calls: seq<Call>, id: string)
    ensures First([c] + calls, id) == if c.id == id then 0 else 1 + First(calls, id)
  {
    assert ([c] + calls)[1..] == calls;
  }

  lemma AttachCons(c: Call, calls: seq<Call>, id: string, result: Json)
    ensures Apply([c] + calls, Attach(id, result)) ==
      if c.id == id then [c.(result := Some(result))] + calls else [c] + Apply(calls, Attach(id, result))
  {
    FirstCons(c, calls, id);
    WithResultCons(c, calls, if c.id == id then -1 else First(calls, id), result);
  }

  lemma LastResultNext(rest: seq<Action>, a: Action, id: string)
    ensures LastResult(rest + [a], id) == if a.Attach? && a.id == id then Some(a.result) else LastResult(rest, id)
  {
    assert (rest + [a])[..|rest|] == rest;
  }

  lemma {:induction false} ExpectedNext(actions: seq<Action>, taken: set<string>, a: Action)
    ensures Expected(actions + [a], taken) ==
      if a.Attach? then (if a.id in taken then Expected(actions, taken) else Apply(Expected(actions, taken), a))
      else Expected(actions, taken) + [CallOf(a.request)]
  {
    var all := actions + [a];
    if actions == [] {
      assert all[1..] == [];
    } else {
      var first, rest := actions[0], actions[1..];
      assert all[0] == first && all[1..] == rest + [a];
      if first.Attach? {
        ExpectedNext(rest, taken, a);
      } else {
        var r := first.request;
        ExpectedNext(rest, taken + {r.id}, a);
        LastResultNext(rest, a, r.id);
        if a.Attach? {
          var c := CallOf(r).(result := if r.id in taken then None else LastResult(rest, r.id));
          AttachCons(c, Expected(rest, taken + {r.id}), a.id, a.result);
        }
      }
    }
  }

  lemma {:induction false} ResultsLand(actions: seq<Action>)
    ensures Applied(actions) == Expected(actions, {})
  {
    if actions != [] {
      var last := |actions| - 1;
      ResultsLand(actions[..last]);
      ExpectedNext(actions[..last], {}, actions[last]);
      assert actions == actions[..last] + [actions[last]];
    }
  }

  lemma AppliedStep(actions: seq<Action>, i: nat)
    requires i < |actions|
    ensures Applied(actions[..i + 1]) == Apply(Applied(actions[..i]), actions[i])
  {
    assert actions[..i + 1][..i] == actions[..i];
  }

  // ----- the objects -----

  method AttachFirst(id: string, result: Json, calls: seq<ToolCall>, ghost values: seq<Call>)
    requires values == Values(calls) && Distinct(calls)
    modifies calls
    ensures Values(calls) == Apply(values, Attach(id, result))
  {
    var i := 0;
    while i < |calls| && calls[i].id != id
      invariant 0 <= i <= |calls| && forall j :: 0 <= j < i ==> calls[j].id != id
    {
      i := i + 1;
    }
    FirstExact(values, id, i);
    if i < |calls| { SetResult(calls[i], result, calls, i, values); }
  }

  lemma FirstExact(calls: seq<Call>, id: string, i: nat)
    requires i <= |calls| && (forall j :: 0 <= j < i ==> calls[j].id != id) && (i < |calls| ==> calls[i].id == id)
    ensures First(calls, id) == i
  {
  }

  method RunActions(actions: seq<Action>) returns (calls: seq<Call>)
    ensures calls == Applied(actions)
  {
    var objects: seq<ToolCall> := [];
    ghost var values: seq<Call> := [];
    for i := 0 to |actions|
      invariant fresh(set c | c in objects)
      invariant values == Applied(actions[..i]) && Values(objects) == values && Distinct(objects)
    {
      AppliedStep(actions, i);
      match actions[i] {
        case Record(r) =>
          var c := new ToolCall(r);
          assert c !in objects;
          objects := objects + [c];
          assert Values(objects) == values + [c.Value()];
        case Attach(id, result) =>
          AttachFirst(id, result, objects, values);
      }
      values := Apply(values, actions[i]);
    }
    assert actions[..|actions|] == actions;
    calls := Values(objects);
  }

  // ----- the events -----

  datatype Block = Text(text: string) | ToolUse(request: Request) | Skipped
  datatype Content = Plain(text: string) | Blocks(blocks: seq<Block>)

  /** A completed call whose payload has no result object carries None. */
  datatype Event =
    | Message(content: Content, text: string)
    | FlatToolUse(request: Request)
    | Started(request: Request)
    | Completed(id: string, outcome: Option<Json>)
    | Result(chat: Option<string>, isError: Option<bool>, result: string)
    | Other

  function BlockActions(blocks: seq<Block>): seq<Action> {
    if blocks == [] then []
    else (if blocks[0].ToolUse? then [Record(blocks[0].request)] else []) + BlockActions(blocks[1..])
  }

  function ActionsOf(e: Event): seq<Action> {
    match e
    case Message(Blocks(blocks), _) => BlockActions(blocks)
    case Message(Plain(_), _) => []
    case FlatToolUse(r) => [Record(r)]
    case Started(r) => [Record(r)]
    case Completed(id, outcome) => if outcome.Some? then [Attach(id, outcome.value)] else []
    case Result(_, _, _) => []
    case Other => []
  }

  function Actions(events: seq<Event>): seq<Action> {
    if events == [] then [] else Actions(events[..|events| - 1]) + ActionsOf(events[|events| - 1])
  }

  function BlockTexts(blocks: seq<Block>): seq<string> {
    if blocks == [] then []
    else (if blocks[0].Text? then [blocks[0].text] else []) + BlockTexts(blocks[1..])
  }

  function IfInk(text: string): seq<string> { if NonBlank(text) then [text] else [] }

  /** The parts of the reply; a result's own text stands in when nothing came before it. */
  function AddParts(parts: seq<string>, e: Event): seq<string> {
    match e
    case Message(Plain(content), text) => parts + IfInk(content) + IfInk(text)
    case Message(Blocks(blocks), text) => parts + BlockTexts(blocks) + IfInk(text)
    case Result(_, _, result) => if parts == [] then IfInk(result) else parts
    case FlatToolUse(_) => parts
    case Started(_) => parts
    case Completed(_, _) => parts
    case Other => parts
  }

  function Parts(events: seq<Event>): seq<string> {
    if events == [] then [] else AddParts(Parts(events[..|events| - 1]), events[|events| - 1])
  }

  /** The last result event. */
  function LastOutcome(events: seq<Event>): (r: Option<Event>)
    ensures r.Some? ==> r.value.Result?
  {
    if events == [] then None
    else if events[|events| - 1].Result? then Some(events[|events| - 1]) else LastOutcome(events[..|events| - 1])
  }

  lemma BlockActionsCons(block: Block, rest: seq<Block>)
    ensures BlockActions([block] + rest) ==
      (if block.ToolUse? then [Record(block.request)] else []) + BlockActions(rest)
  {
    assert ([block] + rest)[1..] == rest;
  }

  lemma {:induction false} BlockActionsInParts(a: seq<Block>, b: seq<Block>)
    ensures BlockActions(a + b) == BlockActions(a) + BlockActions(b)
  {
    if a == [] {
      assert a + b == b && [] + BlockActions(b) == BlockActions(b);
    } else {
      var x, rest := a[0], a[1..];
      assert a == [x] + rest;
      BlockActionsInParts(rest, b);
      BlockActionsCons(x, rest);
      Regroup([x], rest, b);
      BlockActionsCons(x, rest + b);
      Regroup(if x.ToolUse? then [Record(x.request)] else [], BlockActions(rest), BlockActions(b));
    }
  }

  lemma BlockTextsCons(block: Block, rest: seq<Block>)
    ensures BlockTexts([block] + rest) == (if block.Text? then [block.text] else []) + BlockTexts(rest)
  {
    assert ([block] + rest)[1..] == rest;
  }

  lemma {:induction false} BlockTextsInParts(a: seq<Block>, b: seq<Block>)
    ensures BlockTexts(a + b) == BlockTexts(a) + BlockTexts(b)
  {
    if a == [] {
      assert a + b == b && [] + BlockTexts(b) == BlockTexts(b);
    } else {
      var x, rest := a[0], a[1..];
      assert a == [x] + rest;
      BlockTextsInParts(rest, b);
      BlockTextsCons(x, rest);
      Regroup([x], rest, b);
      BlockTextsCons(x, rest + b);
      Regroup(if x.Text? then [x.text] else [], BlockTexts(rest), BlockTexts(b));
    }
  }

  lemma BlocksInParts(a: seq<Block>, b: seq<Block>)
    ensures BlockActions(a + b) == BlockActions(a) + BlockActions(b)
    ensures BlockTexts(a + b) == BlockTexts(a) + BlockTexts(b)
  {
    BlockActionsInParts(a, b);
    BlockTextsInParts(a, b);
  }

  lemma OneBlock(block: Block)
    ensures BlockActions([block]) == (if block.ToolUse? then [Record(block.request)] else [])
    ensures BlockTexts([block]) == (if block.Text? then [block.text] else [])
  {
    assert [block][1..] == [];
  }

  /** Whatever surrounds it, a block adds what it asks for and its text in place. */
  lemma BlockInPlace(a: seq<Block>, block: Block, b: seq<Block>)
    ensures BlockActions(a + [block] + b) ==
      BlockActions(a) + (if block.ToolUse? then [Record(block.request)] else []) + BlockActions(b)
    ensures BlockTexts(a + [block] + b) == BlockTexts(a) + (if block.Text? then [block.text] else []) + BlockTexts(b)
  {
    BlocksInParts(a, [block]);
    BlocksInParts(a + [block], b);
    OneBlock(block);
  }

  predicate IsResult(e: Event) { e.Result? }

  lemma ActionsNext(front: seq<Event>, e: Event)
    ensures Actions(front + [e]) == Actions(front) + ActionsOf(e)
  {
    assert (front + [e])[..|front|] == front;
  }

  lemma {:induction false} ActionsInParts(a: seq<Event>, b: seq<Event>)
    ensures Actions(a + b) == Actions(a) + Actions(b)
  {
    if b == [] {
      assert a + b == a && Actions(a) + [] == Actions(a);
    } else {
      var front, e := b[..|b| - 1], b[|b| - 1];
      assert b == front + [e];
      ActionsInParts(a, front);
      ActionsNext(front, e);
      Regroup(a, front, [e]);
      ActionsNext(a + front, e);
      Regroup(Actions(a), Actions(front), ActionsOf(e));
    }
  }

  lemma PartsNext(front: seq<Event>, e: Event)
    ensures Parts(front + [e]) == AddParts(Parts(front), e)
  {
    assert (front + [e])[..|front|] == front;
  }

  lemma AddedLast(parts: seq<string>, more: seq<string>, e: Event)
    requires !e.Result?
    ensures AddParts(parts + more, e) == parts + AddParts(more, e)
  {
  }

  lemma {:induction false} PartsInParts(a: seq<Event>, b: seq<Event>)
    requires Nowhere(b, IsResult)
    ensures Parts(a + b) == Parts(a) + Parts(b)
  {
    if b == [] {
      assert a + b == a && Parts(a) + [] == Parts(a);
    } else {
      var front, e := b[..|b| - 1], b[|b| - 1];
      assert b == front + [e];
      LastWhereNext(front, e, IsResult, 0);
      PartsInParts(a, front);
      PartsNext(front, e);
      Regroup(a, front, [e]);
      PartsNext(a + front, e);
      AddedLast(Parts(a), Parts(front), e);
    }
  }

  lemma ReadInParts(a: seq<Event>, b: seq<Event>)
    ensures Actions(a + b) == Actions(a) + Actions(b)
    ensures Nowhere(b, IsResult) ==> Parts(a + b) == Parts(a) + Parts(b)
  {
    ActionsInParts(a, b);
    if Nowhere(b, IsResult) { PartsInParts(a, b); }
  }

  /** The calls of a message's blocks, one call started, or one result if the payload has one. */
  predicate Does(e: Event, actions: seq<Action>) {
    match e
    case Message(content, _) => actions == if content.Blocks? then BlockActions(content.blocks) else []
    case FlatToolUse(r) => actions == [Record(r)]
    case Started(r) => actions == [Record(r)]
    case Completed(id, outcome) => actions == if outcome.Some? then [Attach(id, outcome.value)] else []
    case _ => actions == []
  }

  /** A message says its content and then its text field, as far as they are not blank. */
  predicate Says(e: Event, texts: seq<string>) {
    if !e.Message? then texts == []
    else
      var content := if e.content.Blocks? then BlockTexts(e.content.blocks)
        else if NonBlank(e.content.text) then [e.content.text] else [];
      texts == content + if NonBlank(e.text) then [e.text] else []
  }

  lemma OneEvent(e: Event)
    ensures Does(e, Actions([e])) && (!e.Result? ==> Says(e, Parts([e])))
  {
    assert [e][..0] == [];
  }

  /** Whatever surrounds it, an event adds its actions in place, and its texts unless a result follows. */
  lemma EventInPlace(a: seq<Event>, e: Event, b: seq<Event>, actions: seq<Action>, texts: seq<string>)
    requires Does(e, actions) && Says(e, texts)
    ensures Actions(a + [e] + b) == Actions(a) + actions + Actions(b)
    ensures !e.Result? && Nowhere(b, IsResult) ==> Parts(a + [e] + b) == Parts(a) + texts + Parts(b)
  {
    ReadInParts(a, [e]);
    ReadInParts(a + [e], b);
    OneEvent(e);
    if !e.Result? { assert Nowhere([e], IsResult); }
  }

  /** A result's own text counts only when nothing was said before it. */
  lemma ResultText(front: seq<Event>, e: Event)
    requires e.Result?
    ensures Parts(front + [e]) == if Parts(front) == [] && NonBlank(e.result) then [e.result] else Parts(front)
  {
    assert (front + [e])[..|front|] == front;
  }

  /** Chat and error flag are those of the last result event. */
  lemma {:induction false} OutcomeIsLast(events: seq<Event>)
    ensures LastOutcome(events).None? <==> Nowhere(events, IsResult)
    ensures LastOutcome(events).Some? ==>
      exists i: nat :: LastWhere(events, IsResult, i) && events[i] == LastOutcome(events).value
  {
    if events != [] {
      var front, e := events[..|events| - 1], events[|events| - 1];
      OutcomeIsLast(front);
      assert events == front + [e];
      LastWhereNext(front, e, IsResult, |front|);
      if !IsResult(e) && LastOutcome(front).Some? {
        var i: nat :| LastWhere(front, IsResult, i) && front[i] == LastOutcome(front).value;
        LastWhereNext(front, e, IsResult, i);
      }
    }
  }

  method Gather(events: seq<Event>) returns (parts: seq<string>, chat: Option<string>, isError: Option<bool>)
    ensures parts == Parts(events)
    ensures var r := LastOutcome(events);
      if r.None? then chat.None? && isError.None? else chat == r.value.chat && isError == r.value.isError
  {
    parts, chat, isError := [], None, None;
    for i := 0 to |events|
      invariant parts == Parts(events[..i])
      invariant var r := LastOutcome(events[..i]);
        if r.None? then chat.None? && isError.None? else chat == r.value.chat && isError == r.value.isError
    {
      assert events[..i + 1][..i] == events[..i];
      parts := AddParts(parts, events[i]);
      if events[i].Result? { chat, isError := events[i].chat, events[i].isError; }
    }
    assert events[..|events|] == events;
  }

  class CursorAgentAdapter {
    var chatId: Option<string>

    constructor ()
      ensures chatId.None?
    {
      chatId := None;
    }

    method TearDown()
      modifies this
      ensures chatId.None?
    {
      chatId := None;
    }

    method FetchResults(events: seq<Event>, raw: string, lower: string -> string) returns (o: Output)
      modifies this
      ensures var r := LastOutcome(events);
        chatId == if r.Some? && r.value.chat.Some? && r.value.chat.value != "" then r.value.chat else old(chatId)
      ensures Sound(o) && o.calls == Expected(Actions(events), {})
      ensures o.reply == Join("\n", NonBlankParts(Parts(events)))
      ensures var r := LastOutcome(events);
        o.hasError == if r.Some? && r.value.isError.Some? then r.value.isError.value
                      else ErrorIn(raw, lower) && o.reply == ""
      ensures o.errorType == if o.hasError then Some(Classified(None, [Some(o.reply), Some(raw)], lower)) else None
    {
      var calls := RunActions(Actions(events));
      ResultsLand(Actions(events));
      var parts, chat, isError := Gather(events);
      if chat.Some? && chat.value != "" { chatId := chat; }
      var reply := Join("\n", NonBlankParts(parts));
      var hasError := if isError.Some? then isError.value else ErrorIn(raw, lower) && reply == "";
      var errorType := None;
      if hasError { errorType := Some(Classified(None, [Some(reply), Some(raw)], lower)); }
      o := Output(reply, calls, Names(calls), NonBlank(reply), hasError, errorType);
    }
  }
}

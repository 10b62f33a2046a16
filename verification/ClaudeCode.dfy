/** The Claude Code adapter: a tool result lands on the latest call recorded under its id. */
module ClaudeCode {
  import opened Prelude
  import opened Json
  import opened ErrorTypes
  import opened TurnOutput
  import opened ToolCalls

  function Apply(calls: seq<Call>, a: Action): seq<Call> {
    match a
    case Record(r) => calls + [CallOf(r)]
    case Attach(id, result) => if id == "" then calls else WithResult(calls, Latest(calls, id), result)
  }

  function Applied(actions: seq<Action>): seq<Call> {
    if actions == [] then [] else Apply(Applied(actions[..|actions| - 1]), actions[|actions| - 1])
  }

  // ----- which result a call ends up with -----

  predicate SameId(a: Action, id: string) { a.Record? && a.request.id == id }

  /** Among the actions after a call is recorded: the last result for its id before the id is recorded again. */
  function ResultFor(rest: seq<Action>, id: string): Option<Json> {
    if rest == [] || SameId(rest[0], id) then None
    else
      var later := ResultFor(rest[1..], id);
      if later.None? && rest[0].Attach? && rest[0].id == id && id != "" then Some(rest[0].result) else later
  }

  function Expected(actions: seq<Action>): seq<Call> {
    if actions == [] then []
    else
      var a := actions[0];
      (if a.Record? then [CallOf(a.request).(result := ResultFor(actions[1..], a.request.id))] else [])
        + Expected(actions[1..])
  }

  predicate NotRecorded(actions: seq<Action>, id: string) { forall x :: x in actions ==> !SameId(x, id) }

  lemma NotRecordedCons(a: Action, rest: seq<Action>, id: string)
    ensures NotRecorded([a] + rest, id) <==> !SameId(a, id) && NotRecorded(rest, id)
  {
    assert forall x :: x in [a] + rest <==> x == a || x in rest;
  }

  lemma {:induction false} ResultForNext(rest: seq<Action>, a: Action, id: string)
    ensures ResultFor(rest + [a], id) ==
      if a.Attach? && a.id == id && id != "" && NotRecorded(rest, id) then Some(a.result)
      else ResultFor(rest, id)
  {
    var all := rest + [a];
    if rest == [] {
      assert all[1..] == [];
    } else {
      assert all[0] == rest[0] && all[1..] == rest[1..] + [a];
      ResultForNext(rest[1..], a, id);
      assert rest == [rest[0]] + rest[1..];
      NotRecordedCons(rest[0], rest[1..], id);
    }
  }

  lemma {:induction false} LatestMissing(actions: seq<Action>, id: string)
    ensures Latest(Expected(actions), id) == -1 <==> NotRecorded(actions, id)
  {
    if actions != [] {
      var a, rest := actions[0], actions[1..];
      LatestMissing(rest, id);
      assert actions == [a] + rest;
      NotRecordedCons(a, rest, id);
      if a.Record? {
        LatestCons(CallOf(a.request).(result := ResultFor(rest, a.request.id)), Expected(rest), id);
      } else {
        assert Expected(actions) == Expected(rest);
      }
    }
  }

  lemma LatestCons(c: Call, calls: seq<Call>, id: string)
    ensures Latest([c] + calls, id) ==
      if Latest(calls, id) >= 0 then Latest(calls, id) + 1 else if c.id == id then 0 else -1
  {
    var all, k := [c] + calls, Latest(calls, id);
    assert forall j :: 0 < j < |all| ==> all[j] == calls[j - 1];
    if k >= 0 { assert all[k + 1] == calls[k]; }
    assert all[0] == c;
  }

  lemma AttachCons(c: Call, calls: seq<Call>, id: string, result: Json)
    requires id != ""
    ensures Apply([c] + calls, Attach(id, result)) ==
      if Latest(calls, id) == -1 && c.id == id then [c.(result := Some(result))] + calls
      else [c] + Apply(calls, Attach(id, result))
  {
    var k := Latest(calls, id);
    LatestCons(c, calls, id);
    WithResultCons(c, calls, k, result);
  }

  lemma ExpectedCons(first: Action, rest: seq<Action>)
    ensures Expected([first] + rest) ==
      (if first.Record? then [CallOf(first.request).(result := ResultFor(rest, first.request.id))] else [])
        + Expected(rest)
  {
    assert ([first] + rest)[1..] == rest;
  }

  lemma {:induction false} ExpectedNext(actions: seq<Action>, a: Action)
    ensures Expected(actions + [a]) == Apply(Expected(actions), a)
  {
    if actions == [] {
      assert actions + [a] == [a] + [];
      ExpectedCons(a, []);
    } else {
      var first, rest := actions[0], actions[1..];
      assert actions == [first] + rest && actions + [a] == [first] + (rest + [a]);
      ExpectedCons(first, rest);
      ExpectedCons(first, rest + [a]);
      ExpectedNext(rest, a);
      if first.Record? {
        ResultForNext(rest, a, first.request.id);
        ExpectedRecordNext(first, rest, a);
      } else {
        assert [] + Expected(rest) == Expected(rest);
        assert [] + Expected(rest + [a]) == Expected(rest + [a]);
      }
    }
  }

  lemma ExpectedRecordNext(first: Action, rest: seq<Action>, a: Action)
    requires first.Record?
    requires ResultFor(rest + [a], first.request.id) ==
      var id := first.request.id;
      if a.Attach? && a.id == id && id != "" && NotRecorded(rest, id) then Some(a.result) else ResultFor(rest, id)
    ensures var c := CallOf(first.request).(result := ResultFor(rest, first.request.id));
      [c.(result := ResultFor(rest + [a], first.request.id))] + Apply(Expected(rest), a) ==
        Apply([c] + Expected(rest), a)
  {
    var c := CallOf(first.request).(result := ResultFor(rest, first.request.id));
    if a.Attach? && a.id != "" {
      AttachCons(c, Expected(rest), a.id, a.result);
      LatestMissing(rest, a.id);
    }
  }

  /** Every call keeps exactly the result that the stream had for it last, before its id was taken over. */
  lemma {:induction false} ResultsLand(actions: seq<Action>)
    ensures Applied(actions) == Expected(actions)
  {
    if actions != [] {
      var last := |actions| - 1;
      ResultsLand(actions[..last]);
      ExpectedNext(actions[..last], actions[last]);
      assert actions == actions[..last] + [actions[last]];
    }
  }

  // ----- the objects -----

  type ById = map<string, ToolCall>

  /** Each id leads to the object that stands for the latest call with it. */
  ghost predicate Indexed(calls: seq<ToolCall>, values: seq<Call>, byId: ById) {
    && Distinct(calls) && |values| == |calls|
    && (forall id :: id in byId <==> id != "" && Latest(values, id) >= 0)
    && (forall id :: id in byId ==> Latest(values, id) >= 0 && byId[id] == calls[Latest(values, id)])
  }

  lemma LatestAppend(calls: seq<Call>, c: Call, id: string)
    ensures Latest(calls + [c], id) == if c.id == id then |calls| else Latest(calls, id)
  {
    assert (calls + [c])[..|calls|] == calls;
  }

  lemma IndexedAppend(calls: seq<ToolCall>, values: seq<Call>, byId: ById, o: ToolCall, c: Call)
    requires Indexed(calls, values, byId) && o !in calls
    ensures Indexed(calls + [o], values + [c], if c.id != "" then byId[c.id := o] else byId)
  {
    forall id ensures Latest(values + [c], id) == if c.id == id then |calls| else Latest(values, id) {
      LatestAppend(values, c, id);
    }
  }

  lemma LatestIgnoresResults(calls: seq<Call>, i: int, result: Json, id: string)
    ensures Latest(WithResult(calls, i, result), id) == Latest(calls, id)
  {
    var after, k := WithResult(calls, i, result), Latest(calls, id);
    assert forall j :: 0 <= j < |calls| ==> after[j].id == calls[j].id;
    if k >= 0 { assert after[k].id == id; }
    var m := Latest(after, id);
    if m >= 0 { assert calls[m].id == id; }
  }

  lemma IndexedWithResult(calls: seq<ToolCall>, values: seq<Call>, byId: ById, i: int, result: Json)
    requires Indexed(calls, values, byId)
    ensures Indexed(calls, WithResult(values, i, result), byId)
  {
    forall id ensures Latest(WithResult(values, i, result), id) == Latest(values, id) {
      LatestIgnoresResults(values, i, result, id);
    }
  }

  method RecordToolCall(r: Request, calls: seq<ToolCall>, byId: ById, ghost values: seq<Call>)
      returns (calls': seq<ToolCall>, byId': ById)
    requires values == Values(calls) && Indexed(calls, values, byId)
    ensures |calls'| == |calls| + 1 && calls'[..|calls|] == calls && fresh(calls'[|calls|])
    ensures Values(calls') == Apply(values, Record(r))
    ensures Indexed(calls', Apply(values, Record(r)), byId')
  {
    var c := new ToolCall(r);
    calls' := calls + [c];
    byId' := if r.id != "" then byId[r.id := c] else byId;
    IndexedAppend(calls, values, byId, c, c.Value());
    assert Values(calls') == values + [c.Value()];
  }

  method AttachResult(id: string, result: Json, calls: seq<ToolCall>, byId: ById, ghost values: seq<Call>)
    requires values == Values(calls) && Indexed(calls, values, byId)
    modifies calls
    ensures Values(calls) == Apply(values, Attach(id, result))
    ensures Indexed(calls, Apply(values, Attach(id, result)), byId)
  {
    if id in byId {
      ghost var i := Latest(values, id);
      SetResult(byId[id], result, calls, i, values);
      IndexedWithResult(calls, values, byId, i, result);
    }
  }

  // ----- the events -----

  datatype Block = Text(text: string) | Thinking | ToolUse(request: Request) | Skipped

  datatype ToolResult = ToolResult(id: string, result: Json)

  /** `User` carries the tool results that have a textual id, in order. */
  datatype Event =
    | Assistant(blocks: seq<Block>)
    | FlatToolUse(request: Request)
    | User(results: seq<ToolResult>)
    | Result(session: Option<string>, isError: Option<bool>, error: Option<Option<string>>)
    | Other

  function BlockActions(blocks: seq<Block>): seq<Action> {
    if blocks == [] then []
    else (if blocks[0].ToolUse? then [Record(blocks[0].request)] else []) + BlockActions(blocks[1..])
  }

  function ActionsOf(e: Event): seq<Action> {
    match e
    case Assistant(blocks) => BlockActions(blocks)
    case FlatToolUse(r) => [Record(r)]
    case User(results) => seq(|results|, i requires 0 <= i < |results| => Attach(results[i].id, results[i].result))
    case Result(_, _, _) => []
    case Other => []
  }

  function Actions(events: seq<Event>): seq<Action> {
    if events == [] then [] else Actions(events[..|events| - 1]) + ActionsOf(events[|events| - 1])
  }

  function BlockTexts(blocks: seq<Block>): seq<string> {
    if blocks == [] then []
    else (if blocks[0].Text? then [blocks[0].text] else []) + BlockTexts(blocks[1..])
  }

  function Parts(events: seq<Event>): seq<string> {
    if events == [] then []
    else
      var e := events[|events| - 1];
      Parts(events[..|events| - 1]) + if e.Assistant? then BlockTexts(e.blocks) else []
  }

  /** Session, error flag and label as the result events leave them: a later one replaces the first two. */
  datatype Verdict = Verdict(session: Option<string>, isError: Option<bool>, kind: Option<string>)

  function VerdictOf(events: seq<Event>): Verdict {
    if events == [] then Verdict(None, None, None)
    else
      var before, e := VerdictOf(events[..|events| - 1]), events[|events| - 1];
      if e.Result? then Verdict(e.session, e.isError, if e.error.Some? then e.error.value else before.kind) else before
  }

  lemma BlockActionsCons(block: Block, rest: seq<Block>)
    ensures BlockActions([block] + rest) ==
      (if block.ToolUse? then [Record(block.request)] else []) + BlockActions(rest)
  {
    assert ([block] + rest)[1..] == rest;
  }

  lemma {:induction false} BlockActionsInParts(a: seq<Block>, b: seq<Block>)
    ensures BlockActions(a + b) == BlockActions(a) + BlockActions(b)
  {
    if a == [] {
      assert a + b == b && [] + BlockActions(b) == BlockActions(b);
    } else {
      var x, rest := a[0], a[1..];
      assert a == [x] + rest;
      BlockActionsInParts(rest, b);
      BlockActionsCons(x, rest);
      Regroup([x], rest, b);
      BlockActionsCons(x, rest + b);
      Regroup(if x.ToolUse? then [Record(x.request)] else [], BlockActions(rest), BlockActions(b));
    }
  }

  lemma BlockTextsCons(block: Block, rest: seq<Block>)
    ensures BlockTexts([block] + rest) == (if block.Text? then [block.text] else []) + BlockTexts(rest)
  {
    assert ([block] + rest)[1..] == rest;
  }

  lemma {:induction false} BlockTextsInParts(a: seq<Block>, b: seq<Block>)
    ensures BlockTexts(a + b) == BlockTexts(a) + BlockTexts(b)
  {
    if a == [] {
      assert a + b == b && [] + BlockTexts(b) == BlockTexts(b);
    } else {
      var x, rest := a[0], a[1..];
      assert a == [x] + rest;
      BlockTextsInParts(rest, b);
      BlockTextsCons(x, rest);
      Regroup([x], rest, b);
      BlockTextsCons(x, rest + b);
      Regroup(if x.Text? then [x.text] else [], BlockTexts(rest), BlockTexts(b));
    }
  }

  lemma BlocksInParts(a: seq<Block>, b: seq<Block>)
    ensures BlockActions(a + b) == BlockActions(a) + BlockActions(b)
    ensures BlockTexts(a + b) == BlockTexts(a) + BlockTexts(b)
  {
    BlockActionsInParts(a, b);
    BlockTextsInParts(a, b);
  }

  lemma OneBlock(block: Block)
    ensures BlockActions([block]) == (if block.ToolUse? then [Record(block.request)] else [])
    ensures BlockTexts([block]) == (if block.Text? then [block.text] else [])
  {
    assert [block][1..] == [];
  }

  /** Whatever surrounds it, a block adds what it asks for and its text in place. */
  lemma BlockInPlace(a: seq<Block>, block: Block, b: seq<Block>)
    ensures BlockActions(a + [block] + b) ==
      BlockActions(a) + (if block.ToolUse? then [Record(block.request)] else []) + BlockActions(b)
    ensures BlockTexts(a + [block] + b) == BlockTexts(a) + (if block.Text? then [block.text] else []) + BlockTexts(b)
  {
    BlocksInParts(a, [block]);
    BlocksInParts(a + [block], b);
    OneBlock(block);
  }

  lemma ActionsNext(front: seq<Event>, e: Event)
    ensures Actions(front + [e]) == Actions(front) + ActionsOf(e)
  {
    assert (front + [e])[..|front|] == front;
  }

  lemma {:induction false} ActionsInParts(a: seq<Event>, b: seq<Event>)
    ensures Actions(a + b) == Actions(a) + Actions(b)
  {
    if b == [] {
      assert a + b == a && Actions(a) + [] == Actions(a);
    } else {
      var front, e := b[..|b| - 1], b[|b| - 1];
      assert b == front + [e];
      ActionsInParts(a, front);
      ActionsNext(front, e);
      Regroup(a, front, [e]);
      ActionsNext(a + front, e);
      Regroup(Actions(a), Actions(front), ActionsOf(e));
    }
  }

  lemma PartsNext(front: seq<Event>, e: Event)
    ensures Parts(front + [e]) == Parts(front) + (if e.Assistant? then BlockTexts(e.blocks) else [])
  {
    assert (front + [e])[..|front|] == front;
  }

  lemma {:induction false} PartsInParts(a: seq<Event>, b: seq<Event>)
    ensures Parts(a + b) == Parts(a) + Parts(b)
  {
    if b == [] {
      assert a + b == a && Parts(a) + [] == Parts(a);
    } else {
      var front, e := b[..|b| - 1], b[|b| - 1];
      assert b == front + [e];
      PartsInParts(a, front);
      PartsNext(front, e);
      Regroup(a, front, [e]);
      PartsNext(a + front, e);
      Regroup(Parts(a), Parts(front), (if e.Assistant? then BlockTexts(e.blocks) else []));
    }
  }

  lemma ReadInParts(a: seq<Event>, b: seq<Event>)
    ensures Actions(a + b) == Actions(a) + Actions(b) && Parts(a + b) == Parts(a) + Parts(b)
  {
    ActionsInParts(a, b);
    PartsInParts(a, b);
  }

  /** The calls of an assistant's blocks, a flat tool use, or the results that the user's message carries, in order. */
  predicate Does(e: Event, actions: seq<Action>) {
    match e
    case Assistant(blocks) => actions == BlockActions(blocks)
    case FlatToolUse(r) => actions == [Record(r)]
    case User(results) => |actions| == |results| &&
      forall i :: 0 <= i < |results| ==> actions[i] == Attach(results[i].id, results[i].result)
    case _ => actions == []
  }

  predicate Says(e: Event, texts: seq<string>) { texts == if e.Assistant? then BlockTexts(e.blocks) else [] }

  lemma OneEvent(e: Event)
    ensures Does(e, Actions([e])) && Says(e, Parts([e]))
  {
    assert [e][..0] == [];
  }

  lemma DoesOnce(e: Event, actions: seq<Action>, others: seq<Action>)
    requires Does(e, actions) && Does(e, others)
    ensures actions == others
  {
  }

  /** Whatever surrounds it, an event adds its actions and its texts in place. */
  lemma EventInPlace(a: seq<Event>, e: Event, b: seq<Event>, actions: seq<Action>, texts: seq<string>)
    requires Does(e, actions) && Says(e, texts)
    ensures Actions(a + [e] + b) == Actions(a) + actions + Actions(b)
    ensures Parts(a + [e] + b) == Parts(a) + texts + Parts(b)
  {
    ReadInParts(a, [e]);
    ReadInParts(a + [e], b);
    OneEvent(e);
    DoesOnce(e, actions, Actions([e]));
  }

  predicate IsResult(e: Event) { e.Result? }
  predicate Relabels(e: Event) { e.Result? && e.error != None }

  /** Session and error flag are those of the last result event. */
  lemma {:induction false} VerdictIsLast(events: seq<Event>)
    ensures Nowhere(events, IsResult) ==> VerdictOf(events).session.None? && VerdictOf(events).isError.None?
    ensures !Nowhere(events, IsResult) ==>
      exists i: nat :: LastWhere(events, IsResult, i) &&
        VerdictOf(events).session == events[i].session && VerdictOf(events).isError == events[i].isError
  {
    if events != [] {
      var front, e := events[..|events| - 1], events[|events| - 1];
      VerdictIsLast(front);
      assert events == front + [e];
      LastWhereNext(front, e, IsResult, |front|);
      if !IsResult(e) && !Nowhere(front, IsResult) {
        var i: nat :| LastWhere(front, IsResult, i) &&
          VerdictOf(front).session == front[i].session && VerdictOf(front).isError == front[i].isError;
        LastWhereNext(front, e, IsResult, i);
      }
    }
  }

  /** The label is that of the last result event with an error. */
  lemma {:induction false} LabelIsLast(events: seq<Event>)
    ensures Nowhere(events, Relabels) ==> VerdictOf(events).kind.None?
    ensures !Nowhere(events, Relabels) ==>
      exists i: nat :: LastWhere(events, Relabels, i) && Some(VerdictOf(events).kind) == events[i].error
  {
    if events != [] {
      var front, e := events[..|events| - 1], events[|events| - 1];
      LabelIsLast(front);
      assert events == front + [e];
      LastWhereNext(front, e, Relabels, |front|);
      if !Relabels(e) && !Nowhere(front, Relabels) {
        var i: nat :| LastWhere(front, Relabels, i) && Some(VerdictOf(front).kind) == front[i].error;
        LastWhereNext(front, e, Relabels, i);
      }
    }
  }

  lemma AppliedStep(actions: seq<Action>, i: nat)
    requires i < |actions|
    ensures Applied(actions[..i + 1]) == Apply(Applied(actions[..i]), actions[i])
    ensures Names(Applied(actions[..i + 1])) ==
      Names(Applied(actions[..i])) + if actions[i].Record? then [actions[i].request.name] else []
  {
    assert actions[..i + 1][..i] == actions[..i];
  }

  method RunAction(a: Action, calls: seq<ToolCall>, byId: ById, ghost values: seq<Call>)
      returns (calls': seq<ToolCall>, byId': ById)
    requires Values(calls) == values && Indexed(calls, values, byId)
    modifies calls
    ensures Values(calls') == Apply(values, a) && Indexed(calls', Apply(values, a), byId')
    ensures forall c :: c in calls' ==> c in calls || fresh(c)
  {
    match a {
      case Record(r) =>
        calls', byId' := RecordToolCall(r, calls, byId, values);
        assert calls' == calls + [calls'[|calls|]];
      case Attach(id, result) =>
        AttachResult(id, result, calls, byId, values);
        calls', byId' := calls, byId;
    }
  }

  /** Runs the actions on objects, and reads the objects when all is done. */
  method RunActions(actions: seq<Action>) returns (calls: seq<Call>, sequence: seq<string>)
    ensures calls == Applied(actions) && sequence == Names(calls)
  {
    var objects: seq<ToolCall>, byId: ById := [], map[];
    ghost var values: seq<Call> := [];
    sequence := [];
    for i := 0 to |actions|
      invariant fresh(set c | c in objects)
      invariant values == Applied(actions[..i]) && sequence == Names(values)
      invariant Values(objects) == values && Indexed(objects, values, byId)
    {
      AppliedStep(actions, i);
      objects, byId := RunAction(actions[i], objects, byId, values);
      values := Apply(values, actions[i]);
      if actions[i].Record? { sequence := sequence + [actions[i].request.name]; }
    }
    assert actions[..|actions|] == actions;
    calls := Values(objects);
  }

  method Gather(events: seq<Event>) returns (parts: seq<string>, verdict: Verdict)
    ensures parts == Parts(events) && verdict == VerdictOf(events)
  {
    parts, verdict := [], Verdict(None, None, None);
    for i := 0 to |events|
      invariant parts == Parts(events[..i]) && verdict == VerdictOf(events[..i])
    {
      var e := events[i];
      assert events[..i + 1][..i] == events[..i];
      if e.Assistant? {
        parts := parts + BlockTexts(e.blocks);
      } else if e.Result? {
        verdict := Verdict(e.session, e.isError, if e.error.Some? then e.error.value else verdict.kind);
      }
    }
    assert events[..|events|] == events;
  }

  class ClaudeCodeAgentAdapter {
    var sessionId: Option<string>

    constructor ()
      ensures sessionId.None?
    {
      sessionId := None;
    }

    method TearDown()
      modifies this
      ensures sessionId.None?
    {
      sessionId := None;
    }

    method FetchResults(events: seq<Event>, raw: string, lower: string -> string) returns (o: Output)
      modifies this
      ensures var s := VerdictOf(events).session;
        sessionId == if s.Some? && s.value != "" then s else old(sessionId)
      ensures Sound(o) && o.calls == Expected(Actions(events))
      ensures o.reply == Join("\n", Parts(events))
      ensures var v := VerdictOf(events);
        && o.hasError == (if v.isError.Some? then v.isError.value else ErrorIn(raw, lower))
        && o.errorType == if o.hasError then Some(Classified(v.kind, [Some(o.reply), Some(raw)], lower)) else v.kind
    {
      var calls, sequence := RunActions(Actions(events));
      var parts, verdict := Gather(events);
      ResultsLand(Actions(events));
      if verdict.session.Some? && verdict.session.value != "" { sessionId := verdict.session; }
      var reply := Join("\n", parts);
      var hasError := if verdict.isError.Some? then verdict.isError.value else ErrorIn(raw, lower);
      var errorType := verdict.kind;
      if hasError { errorType := Some(Classified(errorType, [Some(reply), Some(raw)], lower)); }
      o := Output(reply, calls, sequence, NonBlank(reply), hasError, errorType);
    }
  }
}

/** The Copilot adapter: tool calls arrive from several kinds of event and are recorded once per call id. */
module Copilot {
  import opened Prelude
  import opened Json
  import opened ErrorTypes
  import opened TurnOutput

  datatype Block = Text(text: string) | Thinking | ToolUse(request: Request) | Skipped
  datatype Content = Plain(text: string) | Blocks(blocks: seq<Block>)

  /**
   * `Result.error` is None for no error, else the label assigned, which may be missing;
   * `Legacy` is the flat `assistant` / `message` shape of anyone but the user.
   */
  datatype Event =
    | Message(content: Content, requests: seq<Request>)
    | ExecutionStart(request: Request)
    | Result(session: Option<string>, exitCode: Option<int>, error: Option<Option<string>>)
    | Legacy(content: Content)
    | FlatToolUse(request: Request)
    | FunctionCall(request: Request)
    | Other

  // ----- what the events carry -----

  function BlockTexts(blocks: seq<Block>): seq<string> {
    if blocks == [] then []
    else (if blocks[0].Text? then [blocks[0].text] else []) + BlockTexts(blocks[1..])
  }

  function Texts(c: Content): seq<string> {
    match c case Plain(text) => (if text != "" then [text] else []) case Blocks(blocks) => BlockTexts(blocks)
  }

  function BlockRequests(blocks: seq<Block>): seq<Request> {
    if blocks == [] then []
    else (if blocks[0].ToolUse? then [blocks[0].request] else []) + BlockRequests(blocks[1..])
  }

  /** The tool calls that one event asks for. */
  function RequestsOf(e: Event): seq<Request> {
    match e
    case Message(_, requests) => requests
    case ExecutionStart(r) => [r]
    case Legacy(Blocks(blocks)) => BlockRequests(blocks)
    case Legacy(Plain(_)) => []
    case FlatToolUse(r) => [r]
    case FunctionCall(r) => [r]
    case Result(_, _, _) => []
    case Other => []
  }

  function Requests(events: seq<Event>): seq<Request> {
    if events == [] then [] else Requests(events[..|events| - 1]) + RequestsOf(events[|events| - 1])
  }

  function Parts(events: seq<Event>): seq<string> {
    if events == [] then []
    else
      var e := events[|events| - 1];
      Parts(events[..|events| - 1]) + if e.Message? || e.Legacy? then Texts(e.content) else []
  }

  function Session(events: seq<Event>): Option<string> {
    if events == [] then None
    else
      var e := events[|events| - 1];
      if e.Result? && e.session.Some? && e.session.value != "" then e.session else Session(events[..|events| - 1])
  }

  /** Whether the result events say that the turn failed, and the vendor's label. */
  datatype Verdict = Verdict(isError: Option<bool>, kind: Option<string>)

  function AfterResult(v: Verdict, exitCode: Option<int>, error: Option<Option<string>>): Verdict {
    var isError := if exitCode.Some? then Some(exitCode.value != 0) else v.isError;
    if error.None? then Verdict(isError, v.kind)
    else Verdict(if error.value.Some? && error.value.value != "" then Some(true) else isError, error.value)
  }

  function VerdictOf(events: seq<Event>): Verdict {
    if events == [] then Verdict(None, None)
    else
      var before, e := VerdictOf(events[..|events| - 1]), events[|events| - 1];
      if e.Result? then AfterResult(before, e.exitCode, e.error) else before
  }

  /** A result event names a failure, or gives an exit code at least. */
  predicate Labelled(e: Event) { e.Result? && e.error != None && e.error.value != None && e.error.value != Some("") }
  predicate Decides(e: Event) { Labelled(e) || (e.Result? && e.exitCode != None) }
  predicate Relabels(e: Event) { e.Result? && e.error != None }

  /** Failure is what the last event says that decides: a failure named is one whatever the exit code. */
  lemma {:induction false} FailureIsLast(events: seq<Event>)
    ensures VerdictOf(events).isError.None? <==> Nowhere(events, Decides)
    ensures VerdictOf(events).isError.Some? ==>
      exists i: nat :: LastWhere(events, Decides, i) &&
        VerdictOf(events).isError.value == (Labelled(events[i]) || events[i].exitCode != Some(0))
  {
    if events != [] {
      var front, e := events[..|events| - 1], events[|events| - 1];
      FailureIsLast(front);
      assert events == front + [e];
      LastWhereNext(front, e, Decides, |front|);
      if !Decides(e) && VerdictOf(front).isError.Some? {
        var i: nat :| LastWhere(front, Decides, i) &&
          VerdictOf(front).isError.value == (Labelled(front[i]) || front[i].exitCode != Some(0));
        LastWhereNext(front, e, Decides, i);
      }
    }
  }

  /** The label is that of the last event with an error. */
  lemma {:induction false} LabelIsLast(events: seq<Event>)
    ensures Nowhere(events, Relabels) ==> VerdictOf(events).kind.None?
    ensures !Nowhere(events, Relabels) ==>
      exists i: nat :: LastWhere(events, Relabels, i) && Some(VerdictOf(events).kind) == events[i].error
  {
    if events != [] {
      var front, e := events[..|events| - 1], events[|events| - 1];
      LabelIsLast(front);
      assert events == front + [e];
      LastWhereNext(front, e, Relabels, |front|);
      if !Relabels(e) && !Nowhere(front, Relabels) {
        var i: nat :| LastWhere(front, Relabels, i) && Some(VerdictOf(front).kind) == front[i].error;
        LastWhereNext(front, e, Relabels, i);
      }
    }
  }

  predicate Opens(e: Event) { e.Result? && e.session != None && e.session != Some("") }

  lemma {:induction false} SessionIsLast(events: seq<Event>)
    ensures Session(events).None? <==> Nowhere(events, Opens)
    ensures Session(events).Some? ==>
      exists i: nat :: LastWhere(events, Opens, i) && events[i].session == Session(events)
  {
    if events != [] {
      var front, e := events[..|events| - 1], events[|events| - 1];
      SessionIsLast(front);
      assert events == front + [e];
      LastWhereNext(front, e, Opens, |front|);
      if !Opens(e) && Session(front).Some? {
        var i: nat :| LastWhere(front, Opens, i) && front[i].session == Session(front);
        LastWhereNext(front, e, Opens, i);
      }
    }
  }

  lemma BlockTextsCons(block: Block, rest: seq<Block>)
    ensures BlockTexts([block] + rest) == (if block.Text? then [block.text] else []) + BlockTexts(rest)
  {
    assert ([block] + rest)[1..] == rest;
  }

  lemma {:induction false} BlockTextsInParts(a: seq<Block>, b: seq<Block>)
    ensures BlockTexts(a + b) == BlockTexts(a) + BlockTexts(b)
  {
    if a == [] {
      assert a + b == b && [] + BlockTexts(b) == BlockTexts(b);
    } else {
      var x, rest := a[0], a[1..];
      assert a == [x] + rest;
      BlockTextsInParts(rest, b);
      BlockTextsCons(x, rest);
      Regroup([x], rest, b);
      BlockTextsCons(x, rest + b);
      Regroup(if x.Text? then [x.text] else [], BlockTexts(rest), BlockTexts(b));
    }
  }

  lemma BlockRequestsCons(block: Block, rest: seq<Block>)
    ensures BlockRequests([block] + rest) == (if block.ToolUse? then [block.request] else []) + BlockRequests(rest)
  {
    assert ([block] + rest)[1..] == rest;
  }

  lemma {:induction false} BlockRequestsInParts(a: seq<Block>, b: seq<Block>)
    ensures BlockRequests(a + b) == BlockRequests(a) + BlockRequests(b)
  {
    if a == [] {
      assert a + b == b && [] + BlockRequests(b) == BlockRequests(b);
    } else {
      var x, rest := a[0], a[1..];
      assert a == [x] + rest;
      BlockRequestsInParts(rest, b);
      BlockRequestsCons(x, rest);
      Regroup([x], rest, b);
      BlockRequestsCons(x, rest + b);
      Regroup(if x.ToolUse? then [x.request] else [], BlockRequests(rest), BlockRequests(b));
    }
  }

  lemma BlocksInParts(a: seq<Block>, b: seq<Block>)
    ensures BlockTexts(a + b) == BlockTexts(a) + BlockTexts(b)
    ensures BlockRequests(a + b) == BlockRequests(a) + BlockRequests(b)
  {
    BlockTextsInParts(a, b);
    BlockRequestsInParts(a, b);
  }

  lemma OneBlock(block: Block)
    ensures BlockRequests([block]) == (if block.ToolUse? then [block.request] else [])
    ensures BlockTexts([block]) == (if block.Text? then [block.text] else [])
  {
    assert [block][1..] == [];
  }

  /** Whatever surrounds it, a block adds what it asks for and its text in place. */
  lemma BlockInPlace(a: seq<Block>, block: Block, b: seq<Block>)
    ensures BlockRequests(a + [block] + b) ==
      BlockRequests(a) + (if block.ToolUse? then [block.request] else []) + BlockRequests(b)
    ensures BlockTexts(a + [block] + b) == BlockTexts(a) + (if block.Text? then [block.text] else []) + BlockTexts(b)
  {
    BlocksInParts(a, [block]);
    BlocksInParts(a + [block], b);
    OneBlock(block);
  }

  lemma RequestsNext(front: seq<Event>, e: Event)
    ensures Requests(front + [e]) == Requests(front) + RequestsOf(e)
  {
    assert (front + [e])[..|front|] == front;
  }

  lemma {:induction false} RequestsInParts(a: seq<Event>, b: seq<Event>)
    ensures Requests(a + b) == Requests(a) + Requests(b)
  {
    if b == [] {
      assert a + b == a && Requests(a) + [] == Requests(a);
    } else {
      var front, e := b[..|b| - 1], b[|b| - 1];
      assert b == front + [e];
      RequestsInParts(a, front);
      RequestsNext(front, e);
      Regroup(a, front, [e]);
      RequestsNext(a + front, e);
      Regroup(Requests(a), Requests(front), RequestsOf(e));
    }
  }

  lemma PartsNext(front: seq<Event>, e: Event)
    ensures Parts(front + [e]) == Parts(front) + (if e.Message? || e.Legacy? then Texts(e.content) else [])
  {
    assert (front + [e])[..|front|] == front;
  }

  lemma {:induction false} PartsInParts(a: seq<Event>, b: seq<Event>)
    ensures Parts(a + b) == Parts(a) + Parts(b)
  {
    if b == [] {
      assert a + b == a && Parts(a) + [] == Parts(a);
    } else {
      var front, e := b[..|b| - 1], b[|b| - 1];
      assert b == front + [e];
      PartsInParts(a, front);
      PartsNext(front, e);
      Regroup(a, front, [e]);
      PartsNext(a + front, e);
      Regroup(Parts(a), Parts(front), (if e.Message? || e.Legacy? then Texts(e.content) else []));
    }
  }

  lemma ReadInParts(a: seq<Event>, b: seq<Event>)
    ensures Requests(a + b) == Requests(a) + Requests(b) && Parts(a + b) == Parts(a) + Parts(b)
  {
    RequestsInParts(a, b);
    PartsInParts(a, b);
  }

  /** What the event asks for: by its list of requests, by its one, or by its blocks in the legacy shape. */
  predicate Asks(e: Event, requests: seq<Request>) {
    || (e.Message? && e.requests == requests)
    || (e.Legacy? && requests == if e.content.Blocks? then BlockRequests(e.content.blocks) else [])
    || ((e.ExecutionStart? || e.FlatToolUse? || e.FunctionCall?) && requests == [e.request])
    || ((e.Result? || e.Other?) && requests == [])
  }

  /** The text of a message, in either shape, unless it is empty; or that of its blocks. */
  predicate Says(e: Event, texts: seq<string>) {
    if !e.Message? && !e.Legacy? then texts == []
    else if e.content.Blocks? then texts == BlockTexts(e.content.blocks)
    else texts == if e.content.text == "" then [] else [e.content.text]
  }

  lemma OneEvent(e: Event)
    ensures Asks(e, Requests([e])) && Says(e, Parts([e]))
  {
    assert [e][..0] == [];
  }

  /** Whatever surrounds it, an event adds its requests and its texts in place. */
  lemma EventInPlace(a: seq<Event>, e: Event, b: seq<Event>, requests: seq<Request>, texts: seq<string>)
    requires Asks(e, requests) && Says(e, texts)
    ensures Requests(a + [e] + b) == Requests(a) + requests + Requests(b)
    ensures Parts(a + [e] + b) == Parts(a) + texts + Parts(b)
  {
    ReadInParts(a, [e]);
    ReadInParts(a + [e], b);
    OneEvent(e);
  }

  // ----- recording each call once -----

  /** Named, and without an id or with an id that no named request before it carries. */
  predicate Records(requests: seq<Request>, i: nat)
    requires i < |requests|
  {
    && requests[i].name != ""
    && (requests[i].id == "" || forall j :: 0 <= j < i && requests[j].name != "" ==> requests[j].id != requests[i].id)
  }

  function Recorded(requests: seq<Request>): seq<Call> {
    if requests == [] then []
    else
      var last := |requests| - 1;
      Recorded(requests[..last]) + if Records(requests, last) then [CallOf(requests[last])] else []
  }

  function SeenIds(requests: seq<Request>): set<string> {
    set i | 0 <= i < |requests| && requests[i].name != "" && requests[i].id != "" :: requests[i].id
  }

  lemma RecordedNext(requests: seq<Request>, r: Request)
    ensures var seen := SeenIds(requests);
      && Recorded(requests + [r]) == Recorded(requests) + (if r.name != "" && r.id !in seen then [CallOf(r)] else [])
      && SeenIds(requests + [r]) == seen + if r.name != "" && r.id != "" then {r.id} else {}
  {
    var all, n := requests + [r], |requests|;
    assert all[..n] == requests && all[n] == r;
    assert forall j :: 0 <= j < n ==> all[j] == requests[j];
    if r.name != "" && r.id in SeenIds(requests) {
      var j :| 0 <= j < n && requests[j].name != "" && requests[j].id == r.id;
      assert all[j].name != "" && all[j].id == r.id;
    }
    forall id | id in SeenIds(requests) ensures id in SeenIds(all) {
      var j :| 0 <= j < n && requests[j].name != "" && requests[j].id != "" && requests[j].id == id;
      assert all[j].id == id;
    }
    if r.name != "" && r.id != "" { assert all[n].id in SeenIds(all); }
  }

  /** The calls recorded are those of the first named request for each id, and of every named one without an id. */
  lemma {:induction false} RecordedExact(requests: seq<Request>)
    ensures forall c :: c in Recorded(requests) <==>
      exists i :: 0 <= i < |requests| && Records(requests, i) && c == CallOf(requests[i])
    ensures forall i :: 0 <= i < |requests| && requests[i].name != "" ==>
      exists c :: c in Recorded(requests) && c.id == requests[i].id
  {
    if requests != [] {
      var last := |requests| - 1;
      var front, r := requests[..last], requests[last];
      RecordedExact(front);
      assert requests == front + [r];
      RecordedNext(front, r);
    }
  }

  predicate DistinctIds(calls: seq<Call>) {
    forall a, b :: 0 <= a < b < |calls| && calls[a].id != "" ==> calls[a].id != calls[b].id
  }

  lemma {:induction false} RecordedDistinct(requests: seq<Request>)
    ensures DistinctIds(Recorded(requests))
    ensures forall c :: c in Recorded(requests) ==> c.name != "" && (c.id == "" || c.id in SeenIds(requests))
  {
    if requests != [] {
      var last := |requests| - 1;
      var front, r := requests[..last], requests[last];
      RecordedDistinct(front);
      assert requests == front + [r];
      RecordedNext(front, r);
      forall a | 0 <= a < |Recorded(front)|
        ensures Recorded(front)[a].id == "" || Recorded(front)[a].id in SeenIds(front)
      {
        assert Recorded(front)[a] in Recorded(front);
      }
    }
  }

  // ----- the loop -----

  method AddToolCall(r: Request, calls: seq<Call>, sequence: seq<string>, seen: set<string>, ghost before: seq<Request>)
      returns (calls': seq<Call>, sequence': seq<string>, seen': set<string>)
    requires calls == Recorded(before) && sequence == Names(calls) && seen == SeenIds(before)
    ensures calls' == Recorded(before + [r]) && sequence' == Names(calls') && seen' == SeenIds(before + [r])
  {
    RecordedNext(before, r);
    calls', sequence', seen' := calls, sequence, seen;
    if r.name == "" { return; }
    if r.id != "" && r.id in seen { return; }
    if r.id != "" { seen' := seen' + {r.id}; }
    calls' := calls' + [CallOf(r)];
    sequence' := sequence' + [r.name];
  }

  method AddToolCalls(requests: seq<Request>, calls: seq<Call>, sequence: seq<string>, seen: set<string>,
      ghost before: seq<Request>)
      returns (calls': seq<Call>, sequence': seq<string>, seen': set<string>)
    requires calls == Recorded(before) && sequence == Names(calls) && seen == SeenIds(before)
    ensures calls' == Recorded(before + requests) && sequence' == Names(calls') && seen' == SeenIds(before + requests)
  {
    calls', sequence', seen' := calls, sequence, seen;
    assert before + requests[..0] == before;
    for i := 0 to |requests|
      invariant calls' == Recorded(before + requests[..i]) && sequence' == Names(calls')
        && seen' == SeenIds(before + requests[..i])
    {
      assert before + requests[..i + 1] == before + requests[..i] + [requests[i]];
      calls', sequence', seen' := AddToolCall(requests[i], calls', sequence', seen', before + requests[..i]);
    }
    assert requests[..|requests|] == requests;
  }

  method GatherCalls(events: seq<Event>) returns (calls: seq<Call>, sequence: seq<string>)
    ensures calls == Recorded(Requests(events)) && sequence == Names(calls)
  {
    var seen;
    calls, sequence, seen := [], [], {};
    for i := 0 to |events|
      invariant calls == Recorded(Requests(events[..i])) && sequence == Names(calls)
        && seen == SeenIds(Requests(events[..i]))
    {
      assert events[..i + 1][..i] == events[..i];
      calls, sequence, seen := AddToolCalls(RequestsOf(events[i]), calls, sequence, seen, Requests(events[..i]));
    }
    assert events[..|events|] == events;
  }

  method GatherRest(events: seq<Event>) returns (parts: seq<string>, session: Option<string>, verdict: Verdict)
    ensures parts == Parts(events) && session == Session(events) && verdict == VerdictOf(events)
  {
    parts, session, verdict := [], None, Verdict(None, None);
    for i := 0 to |events|
      invariant parts == Parts(events[..i]) && session == Session(events[..i]) && verdict == VerdictOf(events[..i])
    {
      assert events[..i + 1][..i] == events[..i];
      var e := events[i];
      if e.Message? || e.Legacy? {
        parts := parts + Texts(e.content);
      } else if e.Result? {
        if e.session.Some? && e.session.value != "" { session := e.session; }
        verdict := AfterResult(verdict, e.exitCode, e.error);
      }
    }
    assert events[..|events|] == events;
  }

  class CopilotAgentAdapter {
    var sessionId: Option<string>

    constructor ()
      ensures sessionId.None?
    {
      sessionId := None;
    }

    method TearDown()
      modifies this
      ensures sessionId.None?
    {
      sessionId := None;
    }

    method FetchResults(events: seq<Event>, raw: string, lower: string -> string) returns (o: Output)
      modifies this
      ensures sessionId == if Session(events).Some? then Session(events) else old(sessionId)
      ensures Sound(o) && o.calls == Recorded(Requests(events))
      ensures o.reply == Join("\n", NonBlankParts(Parts(events)))
      ensures var v := VerdictOf(events);
        && o.hasError == (if v.isError.Some? then v.isError.value else !NonBlank(o.reply) && ErrorIn(raw, lower))
        && o.errorType == if o.hasError then Some(Classified(v.kind, [Some(o.reply), Some(raw)], lower)) else v.kind
    {
      var calls, sequence := GatherCalls(events);
      var parts, session, verdict := GatherRest(events);
      if session.Some? { sessionId := session; }
      var reply := Join("\n", NonBlankParts(parts));
      var hasError: bool;
      if verdict.isError.Some? {
        hasError := verdict.isError.value;
      } else if NonBlank(reply) {
        hasError := false;
      } else {
        hasError := ErrorIn(raw, lower);
      }
      var errorType := verdict.kind;
      if hasError { errorType := Some(Classified(errorType, [Some(reply), Some(raw)], lower)); }
      o := Output(reply, calls, sequence, NonBlank(reply), hasError, errorType);
    }
  }
}

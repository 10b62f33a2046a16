/** Tool calls as objects whose result is filled in later, and what a stream of actions makes of them. */
module ToolCalls {
  import opened Prelude
  import opened Json
  import opened TurnOutput

  class ToolCall {
    const name: string
    const id: string
    const args: Json
    var result: Option<Json>

    constructor (r: Request)
      ensures Value() == CallOf(r)
    {
      name, id, args, result := r.name, r.id, r.args, None;
    }

    function Value(): Call
      reads this
    {
      Call(name, id, args, result)
    }
  }

  function Values(calls: seq<ToolCall>): (r: seq<Call>)
    reads calls
    ensures |r| == |calls| && forall i :: 0 <= i < |r| ==> r[i] == calls[i].Value()
  {
    seq(|calls|, i requires 0 <= i < |calls| reads calls => calls[i].Value())
  }

  predicate Distinct(calls: seq<ToolCall>) { forall i, j :: 0 <= i < j < |calls| ==> calls[i] != calls[j] }

  /** What an event asks for: record a call, or attach a result to the call with an id. */
  datatype Action = Record(request: Request) | Attach(id: string, result: Json)

  /** The last call with this id, or -1. */
  function Latest(calls: seq<Call>, id: string): (i: int)
    ensures -1 <= i < |calls|
    ensures i >= 0 ==> calls[i].id == id
    ensures forall j :: i < j < |calls| ==> calls[j].id != id
  {
    if calls == [] then -1
    else if calls[|calls| - 1].id == id then |calls| - 1 else Latest(calls[..|calls| - 1], id)
  }

  /** The first call with this id, or the number of calls. */
  function First(calls: seq<Call>, id: string): (i: int)
    ensures 0 <= i <= |calls|
    ensures i < |calls| ==> calls[i].id == id
    ensures forall j :: 0 <= j < i ==> calls[j].id != id
  {
    if calls == [] || calls[0].id == id then 0 else 1 + First(calls[1..], id)
  }

  function WithResult(calls: seq<Call>, i: int, result: Json): seq<Call> {
    if 0 <= i < |calls| then calls[i := calls[i].(result := Some(result))] else calls
  }

  lemma WithResultCons(c: Call, calls: seq<Call>, i: int, result: Json)
    requires -1 <= i
    ensures WithResult([c] + calls, i + 1, result) ==
      if i == -1 then [c.(result := Some(result))] + calls else [c] + WithResult(calls, i, result)
  {
    var all := [c] + calls;
    if i == -1 {
      assert all[0 := c.(result := Some(result))] == [c.(result := Some(result))] + calls;
    } else if i < |calls| {
      assert all[i + 1] == calls[i];
      assert all[i + 1 := calls[i].(result := Some(result))] == [c] + calls[i := calls[i].(result := Some(result))];
    }
  }

  /** Setting the result of one of several distinct objects changes one value. */
  method SetResult(target: ToolCall, result: Json, ghost calls: seq<ToolCall>, ghost i: int, ghost values: seq<Call>)
    requires Distinct(calls) && 0 <= i < |calls| && calls[i] == target && values == Values(calls)
    modifies target
    ensures Values(calls) == WithResult(values, i, result)
  {
    target.result := Some(result);
    assert forall j :: 0 <= j < |calls| && j != i ==> calls[j] != calls[i];
    assert forall j :: 0 <= j < |calls| ==> calls[j].Value() == WithResult(values, i, result)[j];
  }
}

/** Requests and responses of both sides, interleaved on one connection. */
module Correlation {
  import opened Json
  import opened Wrappers

  type Id = j: Json | j.Int? || j.Str? witness Int(0)

  predicate ValidId(j: Json) { j.Int? || j.Str? }

  datatype Kind = Request | Notification | Response

  predicate ValidError(error: Json) {
    error.Obj? && Get(error, "code").Int? && Get(error, "message").Str?
  }

  predicate Structured(j: Json) { j.Obj? || j.Arr? }

  /** The envelope check; None stands for a protocol error. */
  function Validated(v: Json): Option<Kind> {
    if !v.Obj? || Get(v, "jsonrpc") != Str("2.0") then None
    else if Has(v, "method") then
      if Has(v, "result") || Has(v, "error") || !Get(v, "method").Str? || Get(v, "method").s == "" then None
      else if Has(v, "params") && !Structured(Get(v, "params")) then None
      else if Has(v, "id") then (if ValidId(Get(v, "id")) then Some(Request) else None)
      else Some(Notification)
    else if !Has(v, "id") || Has(v, "result") == Has(v, "error") || !ValidId(Get(v, "id")) then None
    else if Has(v, "error") && !ValidError(Get(v, "error")) then None
    else Some(Response)
  }

  /** A message with a method: no result, no error, and parameters that are an array or an object. */
  predicate Names(v: Json) {
    && Get(v, "method").Str? && Get(v, "method").s != "" && !Has(v, "result") && !Has(v, "error")
    && (Has(v, "params") ==> Get(v, "params").Obj? || Get(v, "params").Arr?)
  }

  /** What the three kinds of message look like, after sections 4 and 5 of the JSON-RPC 2.0 specification. */
  lemma EnvelopeKinds(v: Json)
    ensures Validated(v).Some? ==> Get(v, "jsonrpc") == Str("2.0")
    ensures Validated(v) == Some(Request) <==>
              Get(v, "jsonrpc") == Str("2.0") && Names(v) && Has(v, "id") && (Get(v, "id").Int? || Get(v, "id").Str?)
    ensures Validated(v) == Some(Notification) <==> Get(v, "jsonrpc") == Str("2.0") && Names(v) && !Has(v, "id")
    ensures Validated(v) == Some(Response) <==>
              && Get(v, "jsonrpc") == Str("2.0") && !Has(v, "method") && (Get(v, "id").Int? || Get(v, "id").Str?)
              && Has(v, "result") != Has(v, "error")
              && (Has(v, "error") ==> Get(Get(v, "error"), "code").Int? && Get(Get(v, "error"), "message").Str?)
  {
  }

  // --- replies to the peer ---------------------------------------------------------------

  /** What answers peer requests: nothing, or a handler that returns a result or raises. */
  datatype Policy = NoHandler | Handler(answer: Json -> Option<Json>)

  function ResultMessage(id: Json, r: Json): Json {
    Obj(map["jsonrpc" := Str("2.0"), "id" := id, "result" := r])
  }

  function ErrorMessage(id: Json, code: int, text: string): Json {
    Obj(map["jsonrpc" := Str("2.0"), "id" := id, "error" := Obj(map["code" := Int(code), "message" := Str(text)])])
  }

  function Reply(policy: Policy, request: Json): Json {
    var id := Get(request, "id");
    match policy
    case NoHandler =>
      if Get(request, "method") == Str("session/request_permission") then
        ResultMessage(id, Obj(map["outcome" := Obj(map["outcome" := Str("cancelled")])]))
      else if Get(request, "method") == Str("elicitation/create") then
        ResultMessage(id, Obj(map["action" := Str("cancel"), "content" := Null]))
      else ErrorMessage(id, -32601, "Method not supported")
    case Handler(answer) =>
      if answer(request).Some? then ResultMessage(id, answer(request).value)
      else ErrorMessage(id, -32603, "Client request failed")
  }

  /** Without a handler permission is refused, an elicitation is cancelled and any other method is not found; a
      handler's result is passed on, and its failure becomes an internal error. */
  lemma ReplySays(policy: Policy, request: Json)
    ensures var reply, name := Reply(policy, request), Get(request, "method");
            && Get(reply, "jsonrpc") == Str("2.0") && Get(reply, "id") == Get(request, "id")
            && match policy
               case NoHandler =>
                 if name == Str("session/request_permission") then
                   Get(Get(Get(reply, "result"), "outcome"), "outcome") == Str("cancelled") && !Has(reply, "error")
                 else if name == Str("elicitation/create") then
                   Get(Get(reply, "result"), "action") == Str("cancel") && Get(Get(reply, "result"), "content") == Null && !Has(reply, "error")
                 else Get(Get(reply, "error"), "code") == Int(-32601) && !Has(reply, "result")
               case Handler(answer) =>
                 if answer(request).Some? then Get(reply, "result") == answer(request).value && !Has(reply, "error")
                 else Get(Get(reply, "error"), "code") == Int(-32603) && !Has(reply, "result")
  {
  }

  /** Every peer request gets a well-formed response that carries its id, as
      section 5 of the JSON-RPC 2.0 specification asks. */
  lemma ReplyIsResponse(policy: Policy, request: Json)
    requires Validated(request) == Some(Request)
    ensures Validated(Reply(policy, request)) == Some(Response) && Get(Reply(policy, request), "id") == Get(request, "id")
  {
    var reply := Reply(policy, request);
    assert Has(reply, "result") != Has(reply, "error");
    if Has(reply, "error") { assert ValidError(Get(reply, "error")); }
  }

  // --- what the traffic means ----------------------------------------------------------------

  predicate Responds(v: Json, id: Id) {
    Validated(v) == Some(Response) && Get(v, "id") == id
  }

  /** The first response to an id. */
  function First(values: seq<Json>, id: Id): Option<Json> {
    if values == [] then None
    else if Responds(values[0], id) then Some(values[0])
    else First(values[1..], id)
  }

  /** The replies the peer's requests call for, in order of arrival. */
  function Answers(policy: Policy, values: seq<Json>): seq<Json> {
    if values == [] then []
    else
      var v := values[|values| - 1];
      Answers(policy, values[..|values| - 1]) + if Validated(v) == Some(Request) then [Reply(policy, v)] else []
  }

  lemma {:induction false} AnswersAdd(policy: Policy, a: seq<Json>, b: seq<Json>)
    ensures Answers(policy, a + b) == Answers(policy, a) + Answers(policy, b)
    decreases |b|
  {
    hide Validated;
    hide Reply;
    if b == [] {
      assert a + b == a;
    } else {
      assert (a + b)[..|a + b| - 1] == a + b[..|b| - 1];
      AnswersAdd(policy, a, b[..|b| - 1]);
    }
  }

  lemma NoAnswers(policy: Policy)
    ensures Answers(policy, []) == []
  {
  }

  lemma OneAnswer(policy: Policy, v: Json)
    ensures Answers(policy, [v]) == if Validated(v) == Some(Request) then [Reply(policy, v)] else []
  {
    hide Validated;
    hide Reply;
    assert [v][..0] == [];
    assert Answers(policy, []) == [];
  }

  /** The responses among the messages written so far. */
  function ResponsesIn(out: seq<Json>): seq<Json> {
    if out == [] then []
    else
      var v := out[|out| - 1];
      ResponsesIn(out[..|out| - 1]) + if Validated(v) == Some(Response) then [v] else []
  }

  /** The ids of the host's requests among them. */
  function RequestIds(out: seq<Json>): seq<Json> {
    if out == [] then []
    else
      var v := out[|out| - 1];
      RequestIds(out[..|out| - 1]) + if Validated(v) == Some(Request) then [Get(v, "id")] else []
  }

  lemma {:induction false} FirstAppend(values: seq<Json>, v: Json, id: Id)
    ensures First(values + [v], id) ==
              if First(values, id).Some? then First(values, id) else if Responds(v, id) then Some(v) else None
    decreases |values|
  {
    hide Validated;
    if values == [] {
      assert values + [v] == [v] && [v][1..] == [];
    } else {
      assert (values + [v])[1..] == values[1..] + [v];
      FirstAppend(values[1..], v, id);
    }
  }

  /** No later value, be it a duplicate, a late response or a peer request with an equal id,
      changes what the first response was. */
  lemma {:induction false} FirstIsFinal(values: seq<Json>, more: seq<Json>, id: Id)
    requires First(values, id).Some?
    ensures First(values + more, id) == First(values, id)
    decreases |more|
  {
    hide First;
    hide Responds;
    if more == [] {
      assert values + more == values;
    } else {
      assert values + more == (values + [more[0]]) + more[1..];
      FirstAppend(values, more[0], id);
      FirstIsFinal(values + [more[0]], more[1..], id);
    }
  }

  lemma LastStep(values: seq<Json>, v: Json, policy: Policy)
    ensures Answers(policy, values + [v]) == Answers(policy, values) + if Validated(v) == Some(Request) then [Reply(policy, v)] else []
    ensures ResponsesIn(values + [v]) == ResponsesIn(values) + if Validated(v) == Some(Response) then [v] else []
    ensures RequestIds(values + [v]) == RequestIds(values) + if Validated(v) == Some(Request) then [Get(v, "id")] else []
  {
    hide Validated;
    hide Reply;
    assert (values + [v])[..|values + [v]| - 1] == values;
  }

  predicate Increasing(ids: seq<Json>) {
    forall i, j :: 0 <= i < j < |ids| ==> ids[i].Int? && ids[j].Int? && ids[i].i < ids[j].i
  }

  function RequestMessage(id: Json, name: string, params: Option<Json>): Json {
    var fields := map["jsonrpc" := Str("2.0"), "id" := id, "method" := Str(name)];
    Obj(if params.Some? then fields["params" := params.value] else fields)
  }

  lemma MessageIsRequest(id: Id, name: string, params: Option<Json>)
    requires name != "" && (params.Some? ==> Structured(params.value))
    ensures Validated(RequestMessage(id, name, params)) == Some(Request) && Get(RequestMessage(id, name, params), "id") == id
  {
  }

  lemma MessageSays(id: Id, name: string, params: Option<Json>)
    ensures var message := RequestMessage(id, name, params);
            && Get(message, "jsonrpc") == Str("2.0") && Get(message, "id") == id && Get(message, "method") == Str(name)
            && Has(message, "params") == params.Some? && (params.Some? ==> Get(message, "params") == params.value)
  {
  }

  lemma IncreasingAppend(ids: seq<Json>, id: Json)
    requires Increasing(ids) && id.Int? && forall i :: i in ids ==> i.Int? && i.i < id.i
    ensures Increasing(ids + [id])
  {
    forall k | 0 <= k < |ids| ensures ids[k].Int? && ids[k].i < id.i {
      assert ids[k] in ids;
    }
  }

  lemma FirstOfNothing(heard: seq<Json>, id: Id)
    ensures First(heard[|heard|..], id) == None
  {
  }

  lemma FirstHeard(heard: seq<Json>, k: nat, v: Json, id: Id)
    requires k <= |heard|
    ensures First((heard + [v])[k..], id) ==
              if First(heard[k..], id).Some? then First(heard[k..], id) else if Responds(v, id) then Some(v) else None
  {
    assert (heard + [v])[k..] == heard[k..] + [v];
    FirstAppend(heard[k..], v, id);
  }

  lemma NoResponse(v: Json)
    requires Validated(v).None?
    ensures forall id: Id :: !Responds(v, id)
  {
  }

  lemma ResponseId(v: Json)
    requires Validated(v) == Some(Response)
    ensures ValidId(Get(v, "id")) && forall id: Id :: Responds(v, id) <==> Get(v, "id") == id
  {
  }

  // --- the connection ---------------------------------------------------------------------------

  datatype SendError = BadRequest | PendingLimit | WrongId | WriteFailed

  datatype Waiting = NotPending | Answered(response: Json) | ProtocolError | OutOfInput

  class Connection {
    const maxPending: nat
    const policy: Policy
    var nextId: nat
    var pending: map<Id, Option<Json>>
    var out: seq<Json>
    ghost var heard: seq<Json>
    ghost var since: map<Id, nat>

    /** A slot holds the first response that was heard since the id was registered. */
    ghost predicate SlotOk(id: Id)
      reads this
      requires id in pending && id in since
    {
      id.Int? && 1 <= id.i < nextId && since[id] <= |heard| && pending[id] == First(heard[since[id]..], id)
    }

    ghost predicate Valid()
      reads this
    {
      && 1 <= nextId && |pending| <= maxPending && since.Keys == pending.Keys
      && (forall id: Id :: id in pending ==> SlotOk(id))
      && ResponsesIn(out) == Answers(policy, heard)
      && Increasing(RequestIds(out)) && forall id :: id in RequestIds(out) ==> id.Int? && id.i < nextId
    }

    constructor (maxPending: nat, policy: Policy)
      requires maxPending >= 1
      ensures Valid() && this.maxPending == maxPending && this.policy == policy && pending == map[] && out == [] && nextId == 1
    {
      this.maxPending, this.policy := maxPending, policy;
      nextId, pending, out, heard, since := 1, map[], [], [], map[];
    }

    /** written tells whether the whole frame could be written. */
    method SendRequest(name: string, params: Option<Json>, asked: Option<Id>, written: bool) returns (r: Result<Id, SendError>)
      requires Valid()
      modifies this
      ensures Valid() && heard == old(heard)
      ensures r.Ok? ==> r.value == Int(old(nextId)) && nextId == old(nextId) + 1
                        && pending == old(pending)[r.value := None] && r.value !in old(pending)
                        && since == old(since)[r.value := |heard|]
                        && out == old(out) + [RequestMessage(r.value, name, params)]
      ensures r.Ok? ==> var message := out[|old(out)|];
                        && Get(message, "jsonrpc") == Str("2.0") && Get(message, "id") == r.value && Get(message, "method") == Str(name)
                        && Has(message, "params") == params.Some? && (params.Some? ==> Get(message, "params") == params.value)
      ensures r.Err? ==> pending == old(pending) && since == old(since) && out == old(out)
                         && nextId == old(nextId) + if r.error == WriteFailed then 1 else 0
      ensures r == Err(PendingLimit) ==> |pending| >= maxPending
      ensures r.Ok? <==> name != "" && (params.Some? ==> Structured(params.value)) && |old(pending)| < maxPending
                         && (asked.Some? ==> asked.value == Int(old(nextId))) && written
    {
      hide Validated;
      hide RequestMessage;
      hide First;
      hide RequestIds;
      hide ResponsesIn;
      hide Answers;
      if name == "" || (params.Some? && !Structured(params.value)) { return Err(BadRequest); }
      if |pending| >= maxPending { return Err(PendingLimit); }
      var id: Id := Int(nextId);
      if asked.Some? && asked.value != id { return Err(WrongId); }
      nextId := nextId + 1;
      if !written { return Err(WriteFailed); }
      MessageIsRequest(id, name, params);
      MessageSays(id, name, params);
      Register(id, RequestMessage(id, name, params));
      r := Ok(id);
    }

    /** The request is on the wire; its slot opens. */
    method Register(id: Id, message: Json)
      requires Valid() && id == Int(nextId - 1) && id !in pending && |pending| < maxPending && nextId > 1
      requires Validated(message) == Some(Request) && Get(message, "id") == id
      requires forall i :: i in RequestIds(out) ==> i.i < id.i
      modifies this`out, this`pending, this`since
      ensures Valid() && pending == old(pending)[id := None] && since == old(since)[id := |heard|] && out == old(out) + [message]
    {
      hide Validated;
      hide First;
      hide RequestIds;
      hide ResponsesIn;
      hide Answers;
      LastStep(out, message, policy);
      IncreasingAppend(RequestIds(out), id);
      FirstOfNothing(heard, id);
      out := out + [message];
      pending, since := pending[id := None], since[id := |heard|];
    }

    /** Reads and dispatches one frame. A response fills its slot only if that is open and empty. */
    method Pump(v: Json) returns (kind: Option<Kind>)
      requires Valid()
      modifies this`pending, this`out, this`heard
      ensures Valid() && kind == Validated(v)
      ensures heard == if kind.None? then old(heard) else old(heard) + [v]
      ensures pending.Keys == old(pending).Keys
      ensures forall id: Id :: id in pending && (old(pending)[id].Some? || !Responds(v, id)) ==> pending[id] == old(pending)[id]
      ensures forall id: Id :: id in pending && old(pending)[id].None? && Responds(v, id) ==> pending[id] == Some(v)
      ensures out == old(out) + if kind == Some(Request) then [Reply(policy, v)] else []
    {
      hide First;
      hide Validated;
      hide Reply;
      hide RequestIds;
      hide ResponsesIn;
      hide Answers;
      kind := Validated(v);
      if kind.None? {
        NoResponse(v);
        return;
      }
      LastStep(heard, v, policy);
      if kind.value == Request {
        LastStep(out, Reply(policy, v), policy);
        ReplyIsResponse(policy, v);
      }
      forall id: Id | id in pending
        ensures First((heard + [v])[since[id]..], id) ==
                  if pending[id].Some? then pending[id] else if Responds(v, id) then Some(v) else None
      {
        assert SlotOk(id);
        FirstHeard(heard, since[id], v, id);
      }
      if kind.value == Response { ResponseId(v); }
      if kind.value == Response {
        var id: Id := Get(v, "id");
        if id in pending && pending[id].None? { pending := pending[id := Some(v)]; }
      } else if kind.value == Request {
        out := out + [Reply(policy, v)];
      }
      heard := heard + [v];
    }

    /** Pumps until the id has a response, which is the first one heard since it was registered. */
    method WaitFor(id: Id, incoming: seq<Json>) returns (r: Waiting, used: nat)
      requires Valid()
      modifies this
      ensures Valid() && nextId == old(nextId) && used <= |incoming|
      ensures r.NotPending? <==> id !in old(pending)
      ensures heard == old(heard) + incoming[..used] && out == old(out) + Answers(policy, incoming[..used])
      ensures r.ProtocolError? ==> used < |incoming| && Validated(incoming[used]).None?
      ensures r.Answered? ==>
                && First(heard[old(since)[id]..], id) == Some(r.response)
                && (old(pending)[id].None? ==> used > 0 && r.response == incoming[used - 1])
                && pending.Keys == old(pending).Keys - {id} && since == old(since) - {id}
      ensures !r.Answered? ==> pending.Keys == old(pending).Keys && since == old(since)
      ensures r.OutOfInput? ==> used == |incoming| && First(heard[old(since)[id]..], id).None?
    {
      hide First;
      hide Validated;
      hide RequestIds;
      hide ResponsesIn;
      hide Answers;
      hide Reply;
      hide Increasing;
      hide SlotOk;
      hide Valid;
      used := 0;
      NoAnswers(policy);
      assert incoming[..0] == [];
      if id !in pending { return NotPending, 0; }
      while pending[id].None?
        invariant Valid() && id in pending && used <= |incoming| && since == old(since) && nextId == old(nextId)
        invariant pending.Keys == old(pending).Keys && heard == old(heard) + incoming[..used]
        invariant out == old(out) + Answers(policy, incoming[..used])
        invariant old(pending)[id].Some? ==> used == 0 && pending[id] == old(pending)[id]
        invariant old(pending)[id].None? && pending[id].Some? ==> used > 0 && pending[id] == Some(incoming[used - 1])
        decreases |incoming| - used
      {
        if used == |incoming| {
          SlotIsFirst(id);
          return OutOfInput, used;
        }
        var kind := Pump(incoming[used]);
        if kind.None? { return ProtocolError, used; }
        used := used + 1;
        assert incoming[..used] == incoming[..used - 1] + [incoming[used - 1]];
        AnswersAdd(policy, incoming[..used - 1], [incoming[used - 1]]);
        OneAnswer(policy, incoming[used - 1]);
      }
      var response := Take(id);
      r := Answered(response);
    }

    lemma SlotIsFirst(id: Id)
      requires Valid() && id in pending
      ensures pending[id] == First(heard[since[id]..], id)
    {
      assert SlotOk(id);
    }

    /** Hands out a response and closes its slot. */
    method Take(id: Id) returns (response: Json)
      requires Valid() && id in pending && pending[id].Some?
      modifies this`pending, this`since
      ensures Valid() && old(pending)[id] == Some(response)
      ensures First(heard[old(since)[id]..], id) == Some(response)
      ensures pending == old(pending) - {id} && since == old(since) - {id}
    {
      hide First;
      hide RequestIds;
      hide ResponsesIn;
      hide Answers;
      assert SlotOk(id);
      response := pending[id].value;
      pending, since := pending - {id}, since - {id};
    }
  }
}

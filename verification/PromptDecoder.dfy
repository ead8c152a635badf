/** The decoder as the loops it is made of. */
module PromptDecoder {
  import opened Decoder
  import opened Interference
  import opened Json
  import opened Verdict
  import opened Wrappers

  lemma Extended(wire: seq<Json>, k: nat, r: string, s: string)
    requires k < |wire|
    ensures wire[..k + 1] == wire[..k] + [wire[k]]
    ensures CountRequests(wire[..k + 1], r, s) == CountRequests(wire[..k], r, s) + if IsRequest(wire[k], r, s) then 1 else 0
    ensures CountResponses(wire[..k + 1], r) == CountResponses(wire[..k], r) + if IsResponse(wire[k], r) then 1 else 0
  {
    hide IsRequest;
    hide IsResponse;
    assert wire[..k + 1][..k] == wire[..k];
  }

  lemma {:induction false} FirstRequest(wire: seq<Json>, k: nat, r: string, s: string)
    requires k < |wire| && IsRequest(wire[k], r, s) && CountRequests(wire[..k], r, s) == 0
    ensures RequestAt(wire, r, s) == k
    decreases k
  {
    hide IsRequest;
    if k > 0 {
      assert wire[..k] == [wire[0]] + wire[1..][..k - 1];
      CountsAdd([wire[0]], wire[1..][..k - 1], r, s);
      assert [wire[0]][..0] == [];
      assert CountRequests([wire[0]], r, s) == if IsRequest(wire[0], r, s) then 1 else 0;
      FirstRequest(wire[1..], k - 1, r, s);
    }
  }

  lemma {:induction false} FirstResponse(wire: seq<Json>, k: nat, r: string)
    requires k < |wire| && IsResponse(wire[k], r) && CountResponses(wire[..k], r) == 0
    ensures ResponseAt(wire, r) == k
    decreases k
  {
    hide IsResponse;
    if k > 0 {
      assert wire[..k] == [wire[0]] + wire[1..][..k - 1];
      CountsAdd([wire[0]], wire[1..][..k - 1], r, "");
      assert [wire[0]][..0] == [];
      assert CountResponses([wire[0]], r) == if IsResponse(wire[0], r) then 1 else 0;
      FirstResponse(wire[1..], k - 1, r);
    }
  }

  /** The only request and the only response of the prompt, if there is just one of each. */
  method FindEnds(wire: seq<Json>, requestId: string, sessionId: string) returns (ends: Option<(nat, nat)>)
    ensures ends.Some? <==> CountRequests(wire, requestId, sessionId) == 1 && CountResponses(wire, requestId) == 1
    ensures ends.Some? ==> ends.value == (RequestAt(wire, requestId, sessionId), ResponseAt(wire, requestId))
                           && ends.value.0 < |wire| && ends.value.1 < |wire|
  {
    hide IsRequest;
    hide IsResponse;
    hide CountRequests;
    hide CountResponses;
    hide RequestAt;
    hide ResponseAt;
    var requests, responses, request, response := 0, 0, 0, 0;
    NothingCounted(requestId, sessionId);
    assert wire[..0] == [];
    for k := 0 to |wire|
      invariant requests == CountRequests(wire[..k], requestId, sessionId) && responses == CountResponses(wire[..k], requestId)
      invariant requests > 0 ==> request < |wire| && request == RequestAt(wire, requestId, sessionId)
      invariant responses > 0 ==> response < |wire| && response == ResponseAt(wire, requestId)
    {
      Extended(wire, k, requestId, sessionId);
      if IsRequest(wire[k], requestId, sessionId) {
        if requests == 0 {
          request := k;
          FirstRequest(wire, k, requestId, sessionId);
        }
        requests := requests + 1;
      }
      if IsResponse(wire[k], requestId) {
        if responses == 0 {
          response := k;
          FirstResponse(wire, k, requestId);
        }
        responses := responses + 1;
      }
    }
    assert wire[..|wire|] == wire;
    ends := if requests == 1 && responses == 1 then Some((request, response)) else None;
  }

  lemma NothingCounted(r: string, s: string)
    ensures CountRequests([], r, s) == 0 && CountResponses([], r) == 0
  {
  }

  /** The last snapshot wins, even when it is unusable. */
  method NotificationUsage(body: seq<Json>, sessionId: string) returns (usage: Option<Usage>)
    ensures usage == NotedUsage(body, sessionId)
  {
    hide ReportsUsage;
    hide ReadUsage;
    usage := None;
    for k := 0 to |body|
      invariant usage == NotedUsage(body[..k], sessionId)
    {
      assert body[..k + 1][..k] == body[..k];
      if ReportsUsage(body[k], sessionId) { usage := ReadUsage(Get(UpdateOf(body[k]), "usage")); }
    }
    assert body[..|body|] == body;
  }

  method RawFailures(body: seq<Json>, requestId: string, sessionId: string) returns (raws: Option<seq<Json>>)
    ensures raws == Scan(body, requestId, sessionId)
  {
    hide Inspect;
    var own: seq<Json> := [];
    for k := 0 to |body|
      invariant Scan(body[..k], requestId, sessionId) == Some(own)
    {
      assert body[..k + 1][..k] == body[..k];
      match Inspect(body[k], requestId, sessionId)
      case Skip =>
      case Broken =>
        assert body == body[..k + 1] + body[k + 1..];
        ScanAdds(body[..k + 1], body[k + 1..], requestId, sessionId);
        return None;
      case Own(f) => own := own + [f];
    }
    assert body[..|body|] == body;
    raws := Some(own);
  }

  method Reconcile(raws: seq<Json>) returns (g: Gathered)
    ensures g == Gather([], raws)
  {
    hide ReadFailure;
    hide Clashes;
    hide Merged;
    var failures: seq<Evidence> := [];
    for k := 0 to |raws|
      invariant Gather([], raws) == Gather(failures, raws[k..])
    {
      assert raws[k..][1..] == raws[k + 1..];
      match ReadFailure(raws[k])
      case Defect => return Invalid(failures);
      case Raises => return Threw;
      case Good(e) =>
        if Clashes(failures, e) { return Invalid(failures); }
        failures := Merged(failures, e);
    }
    g := All(failures);
  }

  method DecodePromptResult(wire: seq<Json>, requestId: string, sessionId: string) returns (r: PromptResult)
    ensures r == Decode(wire, requestId, sessionId)
    ensures Judged(wire, requestId, sessionId, r)
  {
    DecodeIsJudged(wire, requestId, sessionId);
    hide Judged;
    hide CountRequests;
    hide CountResponses;
    hide RequestAt;
    hide ResponseAt;
    hide Scan;
    hide NotedUsage;
    hide Gather;
    hide ReadUsage;
    hide HasPath;
    hide AtPath;
    var ends := FindEnds(wire, requestId, sessionId);
    if ends.None? || ends.value.1 <= ends.value.0 { return Defective(None, [], None); }
    var response, body := wire[ends.value.1], wire[ends.value.0 + 1..ends.value.1];
    var notified := NotificationUsage(body, sessionId);
    if Has(response, "result") == Has(response, "error") { return Defective(None, [], None); }
    if Has(response, "error") {
      return PromptResult(if ValidError(Get(response, "error")) then Failed else ProtocolInvalid, None, [], notified);
    }
    var answer := Get(response, "result");
    if !answer.Obj? { return Defective(None, [], None); }
    var usage := if Has(answer, "usage") then ReadUsage(Get(answer, "usage")) else notified;
    var stop := Get(answer, "stopReason");
    if !stop.Str? { return Defective(None, [], usage); }
    var raws := RawFailures(body, requestId, sessionId);
    var last := Terminal(answer, requestId);
    if raws.None? || last.None? { return Defective(Some(stop.s), [], usage); }
    var gathered := Reconcile(raws.value + last.value);
    r := Conclude(stop.s, gathered, usage);
  }
}

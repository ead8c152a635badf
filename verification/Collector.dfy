/** The bounded evidence collector of one prompt, and the decoder's view of what it collected. */
module Collector {
  import opened Decoder
  import opened Interference
  import opened Json
  import opened Projection
  import PromptDecoder
  import opened Wrappers

  const MAX_EVIDENCE_RECORDS: nat := 128
  const MAX_EVIDENCE_BYTES: nat := 64 * 1024
  const MAX_AIR_TEXT_BYTES: nat := 4 * 1024
  const MAX_AIR_ACTIONS: nat := 64
  const MAX_AIR_ACTION_BYTES: nat := 256
  const MAX_RAW_AIR_FAILURE_BYTES: nat := 8 * 1024
  const MAX_JSONRPC_ERROR_BYTES: nat := 4 * 1024

  function RequestRecord(version: Json, promptId: int, s: string): Json {
    Obj(map["jsonrpc" := version, "id" := Int(promptId), "method" := Str("session/prompt"),
            "params" := Obj(map["sessionId" := Str(s)])])
  }

  /** Only a complete usage snapshot is kept, without anything the provider added. */
  function ProjectUsage(v: Json): Option<Json> {
    var usage := ReadUsage(v);
    if usage.None? then None
    else
      var fields := map["inputTokens" := Int(usage.value.input), "outputTokens" := Int(usage.value.output),
                        "totalTokens" := Int(usage.value.total)];
      Some(Obj(if usage.value.cached.Some? then fields["cachedInputTokens" := Int(usage.value.cached.value)] else fields))
  }

  function ProjectResponse(v: Json): Json {
    var result := if Has(v, "result") then map["result" := ProjectResult(Get(v, "result"), ProjectUsage(Get(Get(v, "result"), "usage")))] else map[];
    var error := if Has(v, "error") then map["error" := ProjectError(Get(v, "error"))] else map[];
    Obj(map["id" := Get(v, "id")] + result + error)
  }

  // --- the decoder's view ------------------------------------------------------------------

  /** Numeric ids of the prompt become its text form. */
  function Relabel(v: Json, promptId: int, key: string): Json {
    if v.Obj? && Get(v, "id") == Int(promptId) then Obj(v.fields["id" := Str(key)]) else v
  }

  function RelabelAll(values: seq<Json>, promptId: int, key: string): (r: seq<Json>)
    ensures |r| == |values| && forall i :: 0 <= i < |values| ==> r[i] == Relabel(values[i], promptId, key)
  {
    seq(|values|, i requires 0 <= i < |values| => Relabel(values[i], promptId, key))
  }

  function UsageRecord(s: string, usage: Json): Json {
    UpdateRecord(s, Obj(map["sessionUpdate" := Str("usage_update"), "usage" := usage]))
  }

  /** The records as the decoder gets them, with the last usage snapshot just before the response. */
  function DecoderWire(records: seq<Json>, usage: Option<Json>, promptId: int, key: string, s: string): seq<Json> {
    var wire := RelabelAll(records, promptId, key);
    var k := ResponseAt(wire, key);
    if usage.None? then wire else wire[..k] + [UsageRecord(s, usage.value)] + wire[k..]
  }

  /** The whole traffic from the prompt's request to its response: notifications, requests of the
      peer and responses to other requests. */
  function FullWire(request: Json, traffic: seq<Json>, response: Json, promptId: int, key: string): seq<Json> {
    [Relabel(request, promptId, key)] + RelabelAll(traffic, promptId, key) + [Relabel(response, promptId, key)]
  }

  predicate IsNotification(v: Json) { v.Obj? && !Has(v, "id") && Has(v, "method") }

  /** What the collector hears of the traffic. */
  function NotificationsIn(traffic: seq<Json>): seq<Json> {
    if traffic == [] then []
    else
      var v := traffic[|traffic| - 1];
      NotificationsIn(traffic[..|traffic| - 1]) + if IsNotification(v) then [v] else []
  }

  /** A record the decoder passes over: neither end of the prompt, and no failure of it. */
  predicate Bystander(v: Json, promptId: int, key: string, s: string) {
    var w := Relabel(v, promptId, key);
    !IsRequest(w, key, s) && !IsResponse(w, key) && Inspect(w, key, s).Skip?
  }

  /** Whatever is not a notification is passed over. */
  predicate OthersPassedOver(traffic: seq<Json>, promptId: int, key: string, s: string) {
    forall v :: v in traffic ==> IsNotification(v) || Bystander(v, promptId, key, s)
  }

  /** Late responses to other ids are such records, and so are requests of the peer that are neither
      session updates nor prompts of this session under the prompt's own id. */
  lemma PassedOver(v: Json, promptId: int, key: string, s: string)
    requires v.Obj? && Has(v, "id")
    ensures !Has(v, "method") && Get(v, "id") != Int(promptId) && Get(v, "id") != Str(key) ==> Bystander(v, promptId, key, s)
    ensures Has(v, "method") && Get(v, "method") != Str("session/update")
            && (Get(v, "method") == Str("session/prompt") ==> Get(v, "id") != Int(promptId) && Get(v, "id") != Str(key)) ==>
              Bystander(v, promptId, key, s)
  {
    hide HasPath;
    hide AtPath;
  }

  predicate PromptRequest(v: Json, promptId: int, s: string) {
    v.Obj? && Get(v, "id") == Int(promptId) && Get(v, "method") == Str("session/prompt")
    && Get(v, "params").Obj? && Get(Get(v, "params"), "sessionId") == Str(s)
  }

  predicate PromptResponse(v: Json, promptId: int) {
    v.Obj? && Get(v, "id") == Int(promptId) && !Has(v, "method")
  }

  // --- what the interval of an envelope decodes to ---------------------------------------------

  lemma {:induction false} InnerCounts(values: seq<Json>, r: string, s: string)
    requires Inner(values, r, s)
    ensures CountRequests(values, r, s) == 0 && CountResponses(values, r) == 0
    ensures RequestAt(values, r, s) == |values| && ResponseAt(values, r) == |values|
    decreases |values|
  {
    if values != [] {
      var n := |values| - 1;
      assert values == [values[0]] + values[1..] && values == values[..n] + [values[n]];
      assert Inner(values[1..], r, s) && Inner(values[..n], r, s);
      InnerCounts(values[..n], r, s);
      InnerCounts(values[1..], r, s);
      assert values[0] in values && values[n] in values;
    }
  }

  /** With one request at the front and one response at the end, the result is that of what lies between. */
  lemma EnvelopeDecodes(first: Json, body: seq<Json>, last: Json, r: string, s: string)
    requires IsRequest(first, r, s) && !IsResponse(first, r) && IsResponse(last, r) && !IsRequest(last, r, s)
    requires Inner(body, r, s)
    ensures Decode([first] + body + [last], r, s) == Finish(last, body, r, s)
    ensures ResponseAt([first] + body + [last], r) == |body| + 1
  {
    InnerCounts(body, r, s);
    EndCounts(first, r, s);
    EndCounts(last, r, s);
    hide IsRequest;
    hide IsResponse;
    hide Inner;
    hide CountRequests;
    hide CountResponses;
    hide RequestAt;
    hide ResponseAt;
    hide Finish;
    CountsAdd([first], body, r, s);
    CountsAdd([first] + body, [last], r, s);
    RequestFound([first], body, r, s);
    RequestFound([first] + body, [last], r, s);
    ResponseFound([first], body, r);
    ResponseFound([first] + body, [last], r);
    var wire := [first] + body + [last];
    assert wire[|body| + 1] == last && wire[1..|body| + 1] == body;
  }

  lemma EndCounts(v: Json, r: string, s: string)
    ensures CountRequests([v], r, s) == (if IsRequest(v, r, s) then 1 else 0) && CountResponses([v], r) == (if IsResponse(v, r) then 1 else 0)
    ensures RequestAt([v], r, s) == (if IsRequest(v, r, s) then 0 else 1) && ResponseAt([v], r) == (if IsResponse(v, r) then 0 else 1)
  {
    hide IsRequest;
    hide IsResponse;
    assert [v][..0] == [] && [v][1..] == [];
    assert CountRequests([], r, s) == 0 && CountResponses([], r) == 0;
    assert RequestAt([], r, s) == 0 && ResponseAt([], r) == 0;
  }

  // --- the projection keeps the verdict -----------------------------------------------------------

  predicate Harmless(values: Option<seq<Json>>) {
    values.Some? ==> NoneHarmful(values.value)
  }

  /** None of the prompt's own failures is harmful to project. */
  predicate HarmlessTraffic(notifications: seq<Json>, response: Json, r: string, s: string) {
    Harmless(Scan(notifications, r, s)) && Harmless(Terminal(Get(response, "result"), r))
  }

  lemma ConcludeSame(stop: string, g: Gathered, u: Option<Usage>, u': Option<Usage>)
    ensures SameVerdict(Conclude(stop, g, u), Conclude(stop, g, u'))
  {
  }

  lemma BothProjected(fs: seq<Json>, last: seq<Json>)
    requires NoneHarmful(fs) && NoneHarmful(last)
    ensures Gather([], ProjectFailures(fs) + ProjectFailures(last)) == Gather([], fs + last)
  {
    hide Gather;
    hide ProjectFailure;
    hide Harmful;
    assert ProjectFailures(fs + last) == ProjectFailures(fs) + ProjectFailures(last);
    GatherProjected([], fs + last);
  }

  lemma CompleteSame(result: Json, usage: Option<Json>, body: seq<Json>, body': seq<Json>, r: string, s: string)
    requires result.Obj? && Harmless(Scan(body, r, s)) && Harmless(Terminal(result, r))
    requires Scan(body', r, s) == if Scan(body, r, s).None? then None else Some(ProjectFailures(Scan(body, r, s).value))
    ensures SameVerdict(Complete(ProjectResult(result, usage), body', r, s), Complete(result, body, r, s))
  {
    ResultProjected(result, usage, r);
    hide ProjectResult;
    hide Scan;
    hide Terminal;
    hide Gather;
    hide ReadUsage;
    hide NotedUsage;
    hide ProjectFailure;
    hide Harmful;
    hide Conclude;
    hide ProjectFailures;
    hide SameVerdict;
    hide Has;
    var p := ProjectResult(result, usage);
    if Get(result, "stopReason").Str? && Scan(body, r, s).Some? && Terminal(result, r).Some? {
      var fs, last := Scan(body, r, s).value, Terminal(result, r).value;
      BothProjected(fs, last);
      hide NoneHarmful;
      ConcludeSame(Get(result, "stopReason").s, Gather([], fs + last),
                   if Has(p, "usage") then ReadUsage(Get(p, "usage")) else NotedUsage(body', s),
                   if Has(result, "usage") then ReadUsage(Get(result, "usage")) else NotedUsage(body, s));
    }
  }

  lemma FinishSame(response: Json, body: seq<Json>, body': seq<Json>, promptId: int, key: string, s: string)
    requires PromptResponse(response, promptId) && HarmlessTraffic(body, response, key, s)
    requires Scan(body', key, s) == if Scan(body, key, s).None? then None else Some(ProjectFailures(Scan(body, key, s).value))
    ensures var p := Relabel(ProjectResponse(response), promptId, key);
            && IsResponse(p, key) && !Has(p, "method")
            && SameVerdict(Finish(p, body', key, s), Finish(Relabel(response, promptId, key), body, key, s))
  {
    hide Scan;
    hide Terminal;
    hide NotedUsage;
    hide ProjectResult;
    hide ReadUsage;
    hide NoneHarmful;
    var p, q := Relabel(ProjectResponse(response), promptId, key), Relabel(response, promptId, key);
    ResponseFields(response, promptId, key);
    hide ProjectResponse;
    hide Relabel;
    hide ProjectUsage;
    ErrorProjected(Get(response, "error"));
    hide ProjectError;
    hide ValidError;
    if Has(response, "result") && !Has(response, "error") {
      var result := Get(response, "result");
      if result.Obj? {
        CompleteSame(result, ProjectUsage(Get(result, "usage")), body, body', key, s);
      } else {
        NullResult(result);
      }
    }
    hide Complete;
  }

  lemma NullResult(result: Json)
    requires !result.Obj?
    ensures ProjectResult(result, ProjectUsage(Get(result, "usage"))) == Null
  {
  }

  lemma ResponseFields(response: Json, promptId: int, key: string)
    requires PromptResponse(response, promptId)
    ensures var p, q := Relabel(ProjectResponse(response), promptId, key), Relabel(response, promptId, key);
            && IsResponse(p, key) && IsResponse(q, key) && !Has(p, "method")
            && (Has(p, "result") == Has(q, "result") == Has(response, "result")) && (Has(p, "error") == Has(q, "error") == Has(response, "error"))
            && Get(q, "result") == Get(response, "result") && Get(q, "error") == Get(response, "error")
            && (Has(response, "result") ==>
                  Get(p, "result") == ProjectResult(Get(response, "result"), ProjectUsage(Get(Get(response, "result"), "usage"))))
            && (Has(response, "error") ==> Get(p, "error") == ProjectError(Get(response, "error")))
  {
    hide ProjectResult;
    hide ProjectUsage;
    hide ProjectError;
  }

  lemma KeptIsInner(values: seq<Json>, v: Json, r: string, s: string, promptId: int)
    requires v in KeepAll(values, s)
    ensures !IsRequest(v, r, s) && !IsResponse(v, r) && Relabel(v, promptId, r) == v
  {
    hide ProjectAir;
    hide HasPath;
    hide AtPath;
    if values != [] {
      var n := |values| - 1;
      if v !in Keep(values[n], s) { KeptIsInner(values[..n], v, r, s, promptId); }
    }
  }

  lemma TrafficIsInner(traffic: seq<Json>, promptId: int, r: string, s: string)
    requires OthersPassedOver(traffic, promptId, r, s)
    ensures Inner(RelabelAll(traffic, promptId, r), r, s)
  {
    var all := RelabelAll(traffic, promptId, r);
    forall v | v in all ensures !IsRequest(v, r, s) && !IsResponse(v, r) {
      var i :| 0 <= i < |all| && all[i] == v;
      assert traffic[i] in traffic;
    }
  }

  lemma TrafficNext(before: seq<Json>, v: Json, promptId: int, r: string)
    ensures RelabelAll(before + [v], promptId, r) == RelabelAll(before, promptId, r) + [Relabel(v, promptId, r)]
    ensures NotificationsIn(before + [v]) == NotificationsIn(before) + if IsNotification(v) then [v] else []
  {
    hide Relabel;
    hide IsNotification;
    assert (before + [v])[..|before|] == before;
  }

  /** A single record of the traffic, seen by the decoder and heard by the collector. */
  lemma ScanRecord(v: Json, promptId: int, r: string, s: string)
    requires IsNotification(v) || Bystander(v, promptId, r, s)
    ensures Scan([Relabel(v, promptId, r)], r, s) == Scan(if IsNotification(v) then [v] else [], r, s)
  {
    hide Inspect;
    hide IsRequest;
    hide IsResponse;
    ScanOne(Relabel(v, promptId, r), r, s);
    assert Scan([], r, s) == Some([]);
  }

  lemma {:induction false} ScanTraffic(traffic: seq<Json>, promptId: int, r: string, s: string)
    requires OthersPassedOver(traffic, promptId, r, s)
    ensures Scan(RelabelAll(traffic, promptId, r), r, s) == Scan(NotificationsIn(traffic), r, s)
    decreases |traffic|
  {
    if traffic == [] {
      assert RelabelAll(traffic, promptId, r) == NotificationsIn(traffic);
    } else {
      var n := |traffic| - 1;
      var v, before := traffic[n], traffic[..n];
      assert v in traffic && forall x :: x in before ==> x in traffic;
      assert traffic == before + [v];
      ScanTraffic(before, promptId, r, s);
      ScanRecord(v, promptId, r, s);
      TrafficNext(before, v, promptId, r);
      hide Scan;
      hide Relabel;
      hide RelabelAll;
      hide NotificationsIn;
      hide IsNotification;
      ScanAdds(RelabelAll(before, promptId, r), [Relabel(v, promptId, r)], r, s);
      ScanAdds(NotificationsIn(before), if IsNotification(v) then [v] else [], r, s);
    }
  }

  lemma UsageIsSkipped(s: string, usage: Json, r: string)
    ensures Inspect(UsageRecord(s, usage), r, s).Skip? && !IsRequest(UsageRecord(s, usage), r, s) && !IsResponse(UsageRecord(s, usage), r)
  {
    Paths(Obj(map["sessionUpdate" := Str("usage_update"), "usage" := usage]));
    hide HasPath;
    hide AtPath;
  }

  /** The records of a prompt that has its response. */
  function Collected(version: Json, promptId: int, s: string, notifications: seq<Json>, response: Json): seq<Json> {
    [RequestRecord(version, promptId, s)] + KeepAll(notifications, s) + [ProjectResponse(response)]
  }

  lemma RelabelledEnvelope(version: Json, promptId: int, s: string, notifications: seq<Json>, response: Json, key: string)
    ensures RelabelAll(Collected(version, promptId, s, notifications, response), promptId, key)
            == [Relabel(RequestRecord(version, promptId, s), promptId, key)] + KeepAll(notifications, s)
               + [Relabel(ProjectResponse(response), promptId, key)]
  {
    hide Relabel;
    hide RequestRecord;
    hide ProjectResponse;
    hide KeepAll;
    var kept := KeepAll(notifications, s);
    forall i | 0 <= i < |kept| ensures Relabel(kept[i], promptId, key) == kept[i] {
      KeptIsInner(notifications, kept[i], key, s, promptId);
    }
  }

  lemma Requests(request: Json, version: Json, promptId: int, s: string, key: string)
    requires PromptRequest(request, promptId, s)
    ensures var p, q := Relabel(RequestRecord(version, promptId, s), promptId, key), Relabel(request, promptId, key);
            IsRequest(p, key, s) && !IsResponse(p, key) && IsRequest(q, key, s) && !IsResponse(q, key)
  {
  }

  lemma FullDecodes(request: Json, traffic: seq<Json>, response: Json, promptId: int, key: string, s: string)
    requires PromptRequest(request, promptId, s) && PromptResponse(response, promptId)
    requires OthersPassedOver(traffic, promptId, key, s)
    ensures Decode(FullWire(request, traffic, response, promptId, key), key, s)
            == Finish(Relabel(response, promptId, key), RelabelAll(traffic, promptId, key), key, s)
    ensures ResponseAt(FullWire(request, traffic, response, promptId, key), key) == |traffic| + 1
  {
    Requests(request, Null, promptId, s, key);
    ResponseFields(response, promptId, key);
    TrafficIsInner(traffic, promptId, key, s);
    hide Decode;
    hide Finish;
    hide Relabel;
    hide RelabelAll;
    hide Inner;
    hide OthersPassedOver;
    EnvelopeDecodes(Relabel(request, promptId, key), RelabelAll(traffic, promptId, key), Relabel(response, promptId, key), key, s);
  }

  lemma ViewDecodes(request: Json, version: Json, notifications: seq<Json>, response: Json, usage: Option<Json>,
                    promptId: int, key: string, s: string)
    requires PromptRequest(request, promptId, s) && PromptResponse(response, promptId)
    ensures var body := KeepAll(notifications, s) + if usage.Some? then [UsageRecord(s, usage.value)] else [];
            Decode(DecoderWire(Collected(version, promptId, s, notifications, response), usage, promptId, key, s), key, s)
            == Finish(Relabel(ProjectResponse(response), promptId, key), body, key, s)
  {
    var first, last := Relabel(RequestRecord(version, promptId, s), promptId, key), Relabel(ProjectResponse(response), promptId, key);
    var kept := KeepAll(notifications, s);
    RelabelledEnvelope(version, promptId, s, notifications, response, key);
    Requests(request, version, promptId, s, key);
    ResponseFields(response, promptId, key);
    forall v | v in kept ensures !IsRequest(v, key, s) && !IsResponse(v, key) {
      KeptIsInner(notifications, v, key, s, promptId);
    }
    hide Decode;
    hide Finish;
    hide Relabel;
    hide KeepAll;
    hide RequestRecord;
    hide ProjectResponse;
    hide Collected;
    assert !IsRequest(last, key, s);
    EnvelopeDecodes(first, kept, last, key, s);
    assert RelabelAll(Collected(version, promptId, s, notifications, response), promptId, key) == [first] + kept + [last];
    hide RelabelAll;
    WithUsage(first, kept, last, usage, key, s);
  }

  /** The usage record goes in just before the response. */
  lemma WithUsage(first: Json, kept: seq<Json>, last: Json, usage: Option<Json>, r: string, s: string)
    requires IsRequest(first, r, s) && !IsResponse(first, r) && IsResponse(last, r) && !IsRequest(last, r, s)
    requires forall v :: v in kept ==> !IsRequest(v, r, s) && !IsResponse(v, r)
    ensures var wire := [first] + kept + [last];
            var k := ResponseAt(wire, r);
            Decode(if usage.None? then wire else wire[..k] + [UsageRecord(s, usage.value)] + wire[k..], r, s)
            == Finish(last, kept + (if usage.Some? then [UsageRecord(s, usage.value)] else []), r, s)
  {
    hide Decode;
    hide Finish;
    hide IsRequest;
    hide IsResponse;
    hide UsageRecord;
    EnvelopeDecodes(first, kept, last, r, s);
    if usage.Some? {
      var u, wire := UsageRecord(s, usage.value), [first] + kept + [last];
      UsageIsSkipped(s, usage.value, r);
      assert wire[..|kept| + 1] + [u] + wire[|kept| + 1..] == [first] + (kept + [u]) + [last];
      EnvelopeDecodes(first, kept + [u], last, r, s);
    } else {
      assert kept + [] == kept;
    }
  }

  /** Decoding what the collector kept gives the same kind, stop reason and failures as decoding the prompt's
      whole traffic, whatever usage was reported, provided whatever is not a notification is passed over
      and none of the prompt's own failures is harmful. */
  lemma ProjectionKeepsVerdict(request: Json, version: Json, traffic: seq<Json>, response: Json, usage: Option<Json>,
                               promptId: int, key: string, s: string)
    requires PromptRequest(request, promptId, s) && PromptResponse(response, promptId)
    requires OthersPassedOver(traffic, promptId, key, s)
    requires HarmlessTraffic(NotificationsIn(traffic), response, key, s)
    ensures SameVerdict(Decode(DecoderWire(Collected(version, promptId, s, NotificationsIn(traffic), response), usage, promptId, key, s), key, s),
                        Decode(FullWire(request, traffic, response, promptId, key), key, s))
  {
    hide Decode;
    hide Finish;
    hide DecoderWire;
    hide FullWire;
    hide Collected;
    hide Relabel;
    hide RelabelAll;
    hide ProjectResponse;
    hide SameVerdict;
    hide Scan;
    hide Harmless;
    hide OthersPassedOver;
    var notifications, all := NotificationsIn(traffic), RelabelAll(traffic, promptId, key);
    hide NotificationsIn;
    var kept := KeepAll(notifications, s);
    hide KeepAll;
    var more: seq<Json> := if usage.Some? then [UsageRecord(s, usage.value)] else [];
    FullDecodes(request, traffic, response, promptId, key, s);
    ViewDecodes(request, version, notifications, response, usage, promptId, key, s);
    ScanTraffic(traffic, promptId, key, s);
    ScanKept(notifications, key, s);
    ScanAdds(kept, more, key, s);
    assert Scan(more, key, s) == Some([]) by { MoreIsNothing(more, usage, key, s); }
    if Scan(kept, key, s).Some? { assert Scan(kept, key, s).value + [] == Scan(kept, key, s).value; }
    FinishSame(response, all, kept + more, promptId, key, s);
  }

  /** The same for the traffic of a whole connection, of which the prompt is a part. */
  lemma ConnectionKeepsVerdict(earlier: seq<Json>, request: Json, version: Json, traffic: seq<Json>, response: Json, later: seq<Json>,
                               usage: Option<Json>, promptId: int, key: string, s: string)
    requires PromptRequest(request, promptId, s) && PromptResponse(response, promptId)
    requires Inner(earlier, key, s) && Inner(later, key, s) && OthersPassedOver(traffic, promptId, key, s)
    requires HarmlessTraffic(NotificationsIn(traffic), response, key, s)
    ensures SameVerdict(Decode(DecoderWire(Collected(version, promptId, s, NotificationsIn(traffic), response), usage, promptId, key, s), key, s),
                        Decode(earlier + (FullWire(request, traffic, response, promptId, key) + later), key, s))
  {
    hide Decode;
    hide DecoderWire;
    hide Inner;
    hide OthersPassedOver;
    hide HarmlessTraffic;
    hide Collected;
    hide RelabelAll;
    hide Relabel;
    hide NotificationsIn;
    var wire := FullWire(request, traffic, response, promptId, key);
    ProjectionKeepsVerdict(request, version, traffic, response, usage, promptId, key, s);
    FullDecodes(request, traffic, response, promptId, key, s);
    hide SameVerdict;
    AfterIgnored(wire, later, key, s);
    BeforeIgnored(earlier, wire + later, key, s);
  }

  /** What harm does to a whole prompt. A single update that carries one of the prompt's own failures makes the
      full traffic invalid but what was kept of it a plain result, or makes decoding raise where what was kept
      is merely invalid. */
  lemma HarmReachesVerdict(f: Json, request: Json, version: Json, promptId: int, key: string, s: string)
    requires Harmful(f) && Owned(f, key) && PromptRequest(request, promptId, s)
    ensures var full := Decode(FullWire(request, [FailureUpdate(f, s)], EndOfTurn(promptId), promptId, key), key, s);
            var kept := Decode(DecoderWire(Collected(version, promptId, s, [FailureUpdate(f, s)], EndOfTurn(promptId)), None, promptId, key, s), key, s);
            if Container(Get(f, "details")) then
              full.PromptResult? && full.kind == ProtocolInvalid
              && kept.PromptResult? && kept.kind == if Get(f, "severity") == Str("warning") then Success else Failed
            else full.Raised? && kept.PromptResult? && kept.kind == ProtocolInvalid
  {
    hide Decode;
    hide Finish;
    hide KeepAll;
    hide Collected;
    hide DecoderWire;
    hide FullWire;
    hide Scan;
    hide ProjectFailure;
    hide CoreValid;
    var v, response := FailureUpdate(f, s), EndOfTurn(promptId);
    var p := ProjectFailure(f);
    HarmfulUpdate(f, promptId, key, s);
    hide OthersPassedOver;
    FullDecodes(request, [v], response, promptId, key, s);
    ViewDecodes(request, version, [v], response, None, promptId, key, s);
    HarmDone(f);
    hide Harmful;
    hide Owned;
    EndsWith(response, RelabelAll([v], promptId, key), f, promptId, key, s);
    EndsProjected(response, KeepAll([v], s) + [], p, promptId, key, s);
    OneFailure(f);
    OneFailure(p);
  }

  function FailureUpdate(f: Json, s: string): Json {
    UpdateRecord(s, Obj(map["_meta" := Meta(Obj(map["version" := Int(1), "sessionFailure" := f]))]))
  }

  function EndOfTurn(promptId: int): Json {
    Obj(map["id" := Int(promptId), "result" := Obj(map["stopReason" := Str("end_turn")])])
  }

  lemma HarmfulUpdate(f: Json, promptId: int, key: string, s: string)
    requires Owned(f, key)
    ensures var v := FailureUpdate(f, s);
            && RelabelAll([v], promptId, key) == [v]
            && Scan([v], key, s) == Some([f]) && Scan(KeepAll([v], s) + [], key, s) == Some([ProjectFailure(f)])
            && OthersPassedOver([v], promptId, key, s)
  {
    hide ProjectFailure;
    hide Inspect;
    var v := FailureUpdate(f, s);
    FailureInspected(f, key, s);
    assert IsNotification(v) && RelabelAll([v], promptId, key) == [v];
    hide FailureUpdate;
    hide Relabel;
    ScanOne(v, key, s);
    KeptMeansSame(v, key, s);
    KeptOne(v, s);
  }

  lemma KeptOne(v: Json, s: string)
    ensures KeepAll([v], s) + [] == Keep(v, s)
  {
    hide Keep;
    assert [v][..0] == [] && KeepAll([], s) == [];
  }

  lemma FailureInspected(f: Json, key: string, s: string)
    requires Owned(f, key)
    ensures Inspect(FailureUpdate(f, s), key, s) == Own(f)
  {
    var air := Obj(map["version" := Int(1), "sessionFailure" := f]);
    var update := Obj(map["_meta" := Meta(air)]);
    RecordIsUpdate(s, update);
    MetaPaths(update, air);
    hide HasPath;
    hide AtPath;
    hide IsUpdate;
    hide UpdateOf;
  }

  /** What a prompt with one failure and nothing else ends with. */
  lemma OneFailure(f: Json)
    ensures Gather([], [f]) == match ReadFailure(f) case Good(e) => All([e]) case Defect => Invalid([]) case Raises => Threw
  {
    hide ReadFailure;
    assert [f][1..] == [];
    if ReadFailure(f).Good? {
      var e := ReadFailure(f).evidence;
      assert !Clashes([], e) && Merged([], e) == [e];
    }
  }

  lemma EndsWith(response: Json, body: seq<Json>, f: Json, promptId: int, key: string, s: string)
    requires response == EndOfTurn(promptId) && Scan(body, key, s) == Some([f])
    ensures Finish(Relabel(response, promptId, key), body, key, s) == Conclude("end_turn", Gather([], [f]), NotedUsage(body, s))
  {
    hide Scan;
    hide Gather;
    hide ReadUsage;
    hide NotedUsage;
    hide Conclude;
    var result := Obj(map["stopReason" := Str("end_turn")]);
    Paths(result);
    hide HasPath;
    hide AtPath;
    assert [f] + [] == [f];
  }

  lemma EndProjected(promptId: int)
    ensures ProjectResponse(EndOfTurn(promptId)) == EndOfTurn(promptId)
  {
    var result := Obj(map["stopReason" := Str("end_turn")]);
    Paths(result);
    hide HasPath;
    hide AtPath;
    assert ProjectResult(result, None) == result;
  }

  lemma EndsProjected(response: Json, body: seq<Json>, f: Json, promptId: int, key: string, s: string)
    requires response == EndOfTurn(promptId) && Scan(body, key, s) == Some([f])
    ensures Finish(Relabel(ProjectResponse(response), promptId, key), body, key, s) == Conclude("end_turn", Gather([], [f]), NotedUsage(body, s))
  {
    hide Finish;
    hide Conclude;
    hide Gather;
    hide Scan;
    hide NotedUsage;
    hide Relabel;
    EndProjected(promptId);
    EndsWith(response, body, f, promptId, key, s);
  }

  lemma MoreIsNothing(more: seq<Json>, usage: Option<Json>, r: string, s: string)
    requires more == if usage.Some? then [UsageRecord(s, usage.value)] else []
    ensures Scan(more, r, s) == Some([])
  {
    hide Inspect;
    if usage.Some? {
      UsageIsSkipped(s, usage.value, r);
      ScanOne(more[0], r, s);
      assert more == [more[0]];
    }
  }

  // --- the collector ----------------------------------------------------------------------------

  function Sizes(size: Json -> nat, values: seq<Json>): nat {
    if values == [] then 0 else Sizes(size, values[..|values| - 1]) + size(values[|values| - 1])
  }

  lemma SizesNext(size: Json -> nat, values: seq<Json>, v: Json)
    ensures Sizes(size, values + [v]) == Sizes(size, values) + size(v)
  {
    assert (values + [v])[..|values|] == values;
  }

  lemma KeepNext(values: seq<Json>, v: Json, s: string)
    ensures KeepAll(values + [v], s) == KeepAll(values, s) + Keep(v, s)
  {
    hide Keep;
    assert (values + [v])[..|values|] == values;
  }

  lemma NotKept(v: Json, s: string)
    requires !IsUpdate(v, s) || !UpdateOf(v).Obj?
    ensures Keep(v, s) == []
  {
  }

  /** Texts and actions of a failure stay within the limits of the projection. */
  predicate FailureFits(text: string -> nat, f: Json) {
    && (forall k :: k in TextFields && Get(f, k).Str? ==> text(Get(f, k).s) <= MAX_AIR_TEXT_BYTES)
    && (Get(f, "actions").Arr? ==>
          && |Get(f, "actions").items| <= MAX_AIR_ACTIONS
          && forall i :: 0 <= i < |Get(f, "actions").items| && Get(f, "actions").items[i].Str? ==>
               text(Get(f, "actions").items[i].s) <= MAX_AIR_ACTION_BYTES)
  }

  function RawFailure(v: Json): Option<Json> {
    if HasPath(v, SESSION_FAILURE) then Some(AtPath(v, SESSION_FAILURE)) else None
  }

  lemma KeptIs(v: Json, s: string)
    requires IsUpdate(v, s) && UpdateOf(v).Obj?
    ensures Keep(v, s) == if HasPath(UpdateOf(v), AIR) then [UpdateRecord(s, Obj(map["_meta" := Meta(ProjectAir(AtPath(UpdateOf(v), AIR)))]))]
                          else if Progress(UpdateOf(v)) then [UpdateRecord(s, ProgressUpdate)] else []
  {
  }

  lemma RawNeedsAir(v: Json)
    ensures RawFailure(v).Some? ==> HasPath(v, AIR)
  {
    Paths(v);
  }

  /** The usage known after an update: a complete report replaces what was known before. */
  function UsageAfter(update: Json, before: Option<Json>): Option<Json> {
    if Get(update, "sessionUpdate") == Str("usage_update") && ReadUsage(Get(update, "usage")).Some? then ProjectUsage(Get(update, "usage"))
    else before
  }

  /** The projection of a usage report is complete, and it reports the same. */
  lemma ProjectedUsageReads(v: Json)
    ensures ProjectUsage(v).Some? <==> ReadUsage(v).Some?
    ensures ProjectUsage(v).Some? ==> ReadUsage(ProjectUsage(v).value) == ReadUsage(v)
  {
  }

  const OverflowMark := Obj(map["evidence_status" := Str("evidence_overflow")])

  class TurnEvidenceCollector {
    /** Length of a value's JSON text and of a string's encoding, and the text form of an id. */
    const size: Json -> nat
    const text: string -> nat
    const keyOf: int -> string
    var records: seq<Json>
    var promptId: Option<int>
    var sessionId: Option<string>
    var bytes: nat
    var overflow: bool
    var observations: seq<Json>
    var usage: Option<Json>
    ghost var version: Json
    ghost var heard: seq<Json>

    /** Nothing retained exceeds the limits, and the count of bytes is exact until something overflowed. */
    ghost predicate Valid()
      reads this
    {
      && |records| <= MAX_EVIDENCE_RECORDS && bytes <= MAX_EVIDENCE_BYTES
      && (!overflow ==> bytes == Sizes(size, records) + Sizes(size, observations))
    }

    /** The prompt is out, and the records are its own and what was kept of the traffic since. */
    ghost predicate Collecting()
      reads this
    {
      && promptId.Some? && sessionId.Some?
      && records == [RequestRecord(version, promptId.value, sessionId.value)] + KeepAll(heard, sessionId.value)
    }

    constructor (size: Json -> nat, text: string -> nat, keyOf: int -> string)
      ensures Valid() && records == [] && promptId == None && sessionId == None && !overflow && usage == None && heard == []
      ensures this.size == size && this.text == text && this.keyOf == keyOf
    {
      this.size, this.text, this.keyOf := size, text, keyOf;
      records, promptId, sessionId, bytes, overflow, observations, usage := [], None, None, 0, false, [], None;
      version, heard := Null, [];
    }

    method Add(value: Json, raw: Option<Json>) returns (ok: bool)
      requires Valid()
      modifies this`records, this`bytes, this`overflow, this`observations
      ensures Valid()
      ensures ok <==> |old(records)| < MAX_EVIDENCE_RECORDS
                      && old(bytes) + size(value) + (if raw.Some? then size(raw.value) else 0) <= MAX_EVIDENCE_BYTES
      ensures ok ==> records == old(records) + [value] && overflow == old(overflow)
                     && observations == old(observations) + (if raw.Some? then [raw.value] else [])
      ensures !ok ==> overflow && records == old(records) && observations == old(observations) && bytes == old(bytes)
      ensures ok ==> bytes == old(bytes) + size(value) + if raw.Some? then size(raw.value) else 0
    {
      var more := size(value) + if raw.Some? then size(raw.value) else 0;
      if |records| >= MAX_EVIDENCE_RECORDS || bytes + more > MAX_EVIDENCE_BYTES {
        overflow := true;
        return false;
      }
      SizesNext(size, records, value);
      if raw.Some? { SizesNext(size, observations, raw.value); }
      records, bytes := records + [value], bytes + more;
      if raw.Some? { observations := observations + [raw.value]; }
      ok := true;
    }

    /** The failure a record carries, if it carries one, is within its limit, and so are the failure's texts. */
    predicate Fits(v: Json)
    {
      var raw := RawFailure(v);
      raw.Some? ==>
        && size(raw.value) <= 8192
        && (forall k :: k in {"id", "category", "severity", "title", "details"} && Get(raw.value, k).Str? ==> text(Get(raw.value, k).s) <= 4096)
        && (Get(raw.value, "actions").Arr? ==>
              && |Get(raw.value, "actions").items| <= 64
              && forall i :: 0 <= i < |Get(raw.value, "actions").items| && Get(raw.value, "actions").items[i].Str? ==>
                   text(Get(raw.value, "actions").items[i].s) <= 256)
    }

    lemma FitsIs(v: Json)
      ensures Fits(v) <==> (RawFailure(v).None? || (size(RawFailure(v).value) <= MAX_RAW_AIR_FAILURE_BYTES
                                                   && (RawFailure(v).value.Obj? ==> FailureFits(text, RawFailure(v).value))))
    {
      hide RawFailure;
    }

    /** There is room for one more record and for the raw failure beside it. */
    predicate Room(value: Json, raw: Option<Json>)
      reads this`records, this`bytes
    {
      |records| < 128 && bytes + size(value) + (if raw.Some? then size(raw.value) else 0) <= 65536
    }

    /** A raw failure over its limit, or one whose texts are, is an overflow and not an observation. */
    method CheckFailure(v: Json) returns (ok: bool)
      requires Valid()
      modifies this`overflow, this`observations
      ensures Valid()
      ensures ok <==> Fits(v)
      ensures ok ==> overflow == old(overflow) && observations == old(observations)
      ensures !ok ==> overflow && observations == old(observations) + [OverflowMark]
    {
      FitsIs(v);
      hide RawFailure;
      hide Fits;
      hide FailureFits;
      var raw := RawFailure(v);
      ok := raw.None? || (size(raw.value) <= MAX_RAW_AIR_FAILURE_BYTES && (raw.value.Obj? ==> FailureFits(text, raw.value)));
      if !ok { overflow, observations := true, observations + [OverflowMark]; }
    }

    /** The raw failure to keep beside the record, unless it is another prompt's. */
    function OwnRaw(v: Json): Option<Json>
      reads this`promptId
    {
      if RawFailure(v).Some? && promptId.Some? && !Foreign(RawFailure(v).value, keyOf(promptId.value)) then RawFailure(v) else None
    }

    method PromptRequested(request: Json, id: int, s: string) returns (ok: bool)
      requires Valid() && records == []
      modifies this
      ensures Valid() && promptId == Some(id) && sessionId == Some(s) && heard == []
      ensures ok <==> old(Room(RequestRecord(Get(request, "jsonrpc"), id, s), None))
      ensures ok ==> Collecting() && version == Get(request, "jsonrpc")
      ensures !ok ==> overflow && records == []
    {
      promptId, sessionId, version, heard := Some(id), Some(s), Get(request, "jsonrpc"), [];
      ok := Add(RequestRecord(Get(request, "jsonrpc"), id, s), None);
      assert records == [] || records == [RequestRecord(version, id, s)] + [];
    }

    method Notification(v: Json) returns (ok: bool)
      requires Valid() && sessionId.Some?
      modifies this
      ensures Valid() && promptId == old(promptId) && sessionId == old(sessionId) && version == old(version)
      ensures ok ==> heard == old(heard) + [v] && records == old(records) + Keep(v, sessionId.value) && overflow == old(overflow)
      ensures ok && old(Collecting()) ==> Collecting()
      ensures !ok ==> overflow && heard == old(heard) && records == old(records)
      ensures var u, s := UpdateOf(v), old(sessionId.value);
              var ours := IsUpdate(v, s) && u.Obj?;
              && (ok <==> (ours ==> Fits(u) && (Keep(v, s) != [] ==> old(Room(Keep(v, s)[0], OwnRaw(u))))))
              && usage == (if ours && Fits(u) then UsageAfter(u, old(usage)) else old(usage))
              && (ok ==> observations == old(observations) + if ours && old(OwnRaw(u)).Some? then [old(OwnRaw(u)).value] else [])
    {
      hide Keep;
      hide RequestRecord;
      hide IsUpdate;
      hide UpdateOf;
      hide KeepAll;
      hide Sizes;
      hide OwnRaw;
      hide RawFailure;
      hide UsageAfter;
      ok := true;
      if IsUpdate(v, sessionId.value) && UpdateOf(v).Obj? {
        ok := Update(UpdateOf(v), v);
      } else {
        NotKept(v, sessionId.value);
      }
      if ok { Heard(v, old(records)); }
    }

    ghost method Heard(v: Json, before: seq<Json>)
      requires Valid() && sessionId.Some? && records == before + Keep(v, sessionId.value)
      modifies this`heard
      ensures Valid() && heard == old(heard) + [v]
      ensures promptId.Some? && before == [RequestRecord(version, promptId.value, sessionId.value)] + KeepAll(old(heard), sessionId.value) ==>
                Collecting()
    {
      hide Keep;
      hide RequestRecord;
      hide Sizes;
      KeepNext(heard, v, sessionId.value);
      hide KeepAll;
      heard := heard + [v];
    }

    method Update(update: Json, ghost v: Json) returns (ok: bool)
      requires Valid() && sessionId.Some? && IsUpdate(v, sessionId.value) && update == UpdateOf(v) && update.Obj?
      modifies this`records, this`bytes, this`overflow, this`observations, this`usage
      ensures Valid()
      ensures ok ==> records == old(records) + Keep(v, sessionId.value) && overflow == old(overflow)
      ensures !ok ==> overflow && records == old(records)
      ensures ok <==> Fits(update) && (Keep(v, sessionId.value) != [] ==> old(Room(Keep(v, sessionId.value)[0], OwnRaw(update))))
      ensures usage == if Fits(update) then UsageAfter(update, old(usage)) else old(usage)
      ensures ok ==> observations == old(observations) + if old(OwnRaw(update)).Some? then [old(OwnRaw(update)).value] else []
    {
      hide RawFailure;
      hide Foreign;
      hide FailureFits;
      hide Sizes;
      hide IsUpdate;
      hide Keep;
      hide OwnRaw;
      hide UpdateOf;
      ProjectedUsageReads(Get(update, "usage"));
      hide ProjectUsage;
      hide ReadUsage;
      ok := CheckFailure(update);
      if !ok { return; }
      hide Fits;
      if Get(update, "sessionUpdate") == Str("usage_update") && ProjectUsage(Get(update, "usage")).Some? {
        usage := ProjectUsage(Get(update, "usage"));
      }
      ok := Retain(update, v);
    }

    /** The record kept of an update, if there is one to keep. */
    method Retain(update: Json, ghost v: Json) returns (ok: bool)
      requires Valid() && sessionId.Some? && IsUpdate(v, sessionId.value) && update == UpdateOf(v) && update.Obj?
      modifies this`records, this`bytes, this`overflow, this`observations
      ensures Valid()
      ensures ok ==> records == old(records) + Keep(v, sessionId.value) && overflow == old(overflow)
      ensures !ok ==> overflow && records == old(records)
      ensures ok <==> (Keep(v, sessionId.value) != [] ==> old(Room(Keep(v, sessionId.value)[0], OwnRaw(update))))
      ensures ok ==> observations == old(observations) + if old(OwnRaw(update)).Some? then [old(OwnRaw(update)).value] else []
    {
      hide HasPath;
      hide AtPath;
      hide ProjectAir;
      hide RawFailure;
      hide Foreign;
      hide Sizes;
      hide IsUpdate;
      RawNeedsAir(update);
      KeptIs(v, sessionId.value);
      hide Keep;
      hide UpdateRecord;
      hide Meta;
      hide UpdateOf;
      ok := true;
      if HasPath(update, AIR) {
        ok := Add(UpdateRecord(sessionId.value, Obj(map["_meta" := Meta(ProjectAir(AtPath(update, AIR)))])), OwnRaw(update));
      } else if Progress(update) {
        ok := Add(UpdateRecord(sessionId.value, ProgressUpdate), None);
      }
    }

    /** The response can be taken in: its failure and its error text are within their limits, and there is room. */
    predicate Accepts(v: Json)
      reads this
    {
      var result, message := Get(v, "result"), Get(Get(v, "error"), "message");
      && (result.Obj? ==> Fits(result))
      && (message.Str? ==> text(message.s) <= 4096)
      && Room(ProjectResponse(v), if result.Obj? then OwnRaw(result) else None)
    }

    /** A response that carries an error text over its limit is refused like any other overflow. */
    method PromptResponded(v: Json) returns (ok: bool)
      requires Valid() && v.Obj?
      modifies this`records, this`bytes, this`overflow, this`observations, this`usage
      ensures Valid()
      ensures ok ==> records == old(records) + [ProjectResponse(v)] && overflow == old(overflow)
      ensures !ok ==> records == old(records)
      ensures ok <==> old(Accepts(v))
      ensures var result := Get(v, "result");
              usage == if result.Obj? && Fits(result) && ReadUsage(Get(result, "usage")).Some? then ProjectUsage(Get(result, "usage"))
                       else old(usage)
      ensures ok ==> observations == old(observations)
                     + if Get(v, "result").Obj? && old(OwnRaw(Get(v, "result"))).Some? then [old(OwnRaw(Get(v, "result"))).value] else []
    {
      hide HasPath;
      hide AtPath;
      hide ReadUsage;
      hide RawFailure;
      hide ProjectResponse;
      hide FailureFits;
      ProjectedUsageReads(Get(Get(v, "result"), "usage"));
      hide ProjectUsage;
      var result, error := Get(v, "result"), Get(v, "error");
      var raw: Option<Json> := None;
      if result.Obj? {
        ok := CheckFailure(result);
        if !ok { return; }
        raw := OwnRaw(result);
        if ProjectUsage(Get(result, "usage")).Some? { usage := ProjectUsage(Get(result, "usage")); }
      }
      if Get(error, "message").Str? && text(Get(error, "message").s) > MAX_JSONRPC_ERROR_BYTES { return false; }
      ok := Add(ProjectResponse(v), raw);
    }

    /** Takes the response in and decodes what was collected. */
    method ProjectPromptResponse(v: Json) returns (r: Option<PromptResult>)
      requires Valid() && Collecting() && PromptResponse(v, promptId.value)
      modifies this`records, this`bytes, this`overflow, this`observations, this`usage
      ensures Valid()
      ensures r.Some? <==> old(Accepts(v))
      ensures r.Some? ==> r.value == Decode(DecoderWire(records, usage, promptId.value, keyOf(promptId.value), sessionId.value),
                                            keyOf(promptId.value), sessionId.value)
      ensures r.Some? && HarmlessTraffic(heard, v, keyOf(promptId.value), sessionId.value) ==>
                forall request, traffic ::
                  && PromptRequest(request, promptId.value, sessionId.value) && NotificationsIn(traffic) == heard
                  && OthersPassedOver(traffic, promptId.value, keyOf(promptId.value), sessionId.value) ==>
                    SameVerdict(r.value, Decode(FullWire(request, traffic, v, promptId.value, keyOf(promptId.value)),
                                                keyOf(promptId.value), sessionId.value))
    {
      hide Decode;
      hide FullWire;
      hide HarmlessTraffic;
      hide SameVerdict;
      hide NotificationsIn;
      hide OthersPassedOver;
      hide RequestRecord;
      hide KeepAll;
      hide ProjectResponse;
      hide Accepts;
      hide Fits;
      hide RawFailure;
      var ok := PromptResponded(v);
      if !ok { return None; }
      var id, s := promptId.value, sessionId.value;
      var key := keyOf(id);
      assert records == Collected(version, id, s, heard, v);
      var wire := RelabelAll(records, id, key);
      var k := ResponseAt(wire, key);
      if usage.Some? { wire := wire[..k] + [UsageRecord(s, usage.value)] + wire[k..]; }
      var decoded := PromptDecoder.DecodePromptResult(wire, key, s);
      assert wire == DecoderWire(Collected(version, id, s, heard, v), usage, id, key, s);
      hide DecoderWire;
      hide Collected;
      if HarmlessTraffic(heard, v, key, s) {
        forall request, traffic | PromptRequest(request, id, s) && NotificationsIn(traffic) == heard && OthersPassedOver(traffic, id, key, s)
          ensures SameVerdict(decoded, Decode(FullWire(request, traffic, v, id, key), key, s))
        {
          ProjectionKeepsVerdict(request, version, traffic, v, usage, id, key, s);
        }
      }
      r := Some(decoded);
    }
  }
}

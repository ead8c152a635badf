/** Decoding one prompt completion from already received JSON-RPC records. */
module Decoder {
  import opened Json
  import opened Wrappers

  // --- paths ---------------------------------------------------------------------------

  predicate HasPath(v: Json, keys: seq<string>) {
    keys == [] || (Has(v, keys[0]) && HasPath(Get(v, keys[0]), keys[1..]))
  }

  function AtPath(v: Json, keys: seq<string>): Json
    decreases |keys|
  {
    if keys == [] then v else AtPath(Get(v, keys[0]), keys[1..])
  }

  const AIR := ["_meta", "jetbrains", "air"]
  const SESSION_FAILURE := ["_meta", "jetbrains", "air", "sessionFailure"]

  predicate StartsWith(s: string, prefix: string) {
    |prefix| <= |s| && s[..|prefix|] == prefix
  }

  // --- usage ---------------------------------------------------------------------------

  datatype Usage = Usage(input: int, output: int, cached: Option<int>, total: int)

  function Natural(v: Json): Option<int> {
    if v.Int? && v.i >= 0 then Some(v.i) else None
  }

  /** Python compares numbers and truth values across their types. */
  predicate SameNumber(i: int, v: Json) {
    v == Int(i) || v == Float(i as real) || (v.Bool? && i == if v.b then 1 else 0)
  }

  predicate Reported(v: Json, camel: string, snake: string) { Has(v, camel) || Has(v, snake) }

  /** One field under two spellings, which have to agree when both are there. */
  function UsageField(v: Json, camel: string, snake: string): Option<int> {
    var first := if Has(v, camel) then Get(v, camel) else Get(v, snake);
    if Has(v, camel) && Has(v, snake) && first.Int? && !SameNumber(first.i, Get(v, snake)) then None else Natural(first)
  }

  function ReadUsage(v: Json): Option<Usage> {
    var input, output := UsageField(v, "inputTokens", "input_tokens"), UsageField(v, "outputTokens", "output_tokens");
    var cached, total := UsageField(v, "cachedInputTokens", "cached_input_tokens"), UsageField(v, "totalTokens", "total_tokens");
    if input.None? || output.None? || (Reported(v, "cachedInputTokens", "cached_input_tokens") && cached.None?)
       || (Reported(v, "totalTokens", "total_tokens") && total.None?) then None
    else Some(Usage(input.value, output.value, cached, if total.Some? then total.value else input.value + output.value))
  }

  // --- one failure ---------------------------------------------------------------------

  const KnownCategories := {"connection", "access", "limit", "request", "service", "unknown"}
  const KnownActions := {"retry", "new_session", "login"}

  datatype Evidence = Evidence(id: string, revision: int, category: string, actions: seq<string>, warning: bool,
                               title: string, details: Option<string>, unknownCategory: Option<string>,
                               unknownActions: seq<string>)

  /** Evidence, a protocol defect, or an exception the decoder does not catch. */
  datatype Parsed = Good(evidence: Evidence) | Defect | Raises

  predicate Container(v: Json) { v.Arr? || v.Obj? }

  predicate AllStrings(items: seq<Json>) {
    forall i :: 0 <= i < |items| ==> items[i].Str?
  }

  function Strings(items: seq<Json>): seq<string>
    requires AllStrings(items)
  {
    seq(|items|, i requires 0 <= i < |items| => items[i].s)
  }

  function Unknown(actions: seq<string>): seq<string> {
    if actions == [] then []
    else Unknown(actions[..|actions| - 1]) + if actions[|actions| - 1] in KnownActions then [] else [actions[|actions| - 1]]
  }

  /** A missing severity means error. */
  function Severity(f: Json): Json {
    if Has(f, "severity") then Get(f, "severity") else Str("error")
  }

  predicate ValidSeverity(v: Json) { v == Str("warning") || v == Str("error") }

  /** All fields but details and severity are as they should be. */
  predicate CoreValid(f: Json) {
    && f.Obj? && Get(f, "id").Str? && Get(f, "id").s != "" && Get(f, "revision").Int? && Get(f, "revision").i >= 1
    && Get(f, "title").Str? && Get(f, "category").Str?
    && Get(f, "actions").Arr? && AllStrings(Get(f, "actions").items)
  }

  predicate ValidDetails(v: Json) { v.Null? || v.Str? }

  /** Testing an array or an object for membership in a set of strings raises. */
  function ReadFailure(f: Json): Parsed {
    if !CoreValid(f) || !ValidDetails(Get(f, "details")) then Defect
    else if Container(Severity(f)) then Raises
    else if !ValidSeverity(Severity(f)) then Defect
    else
      var category, actions := Get(f, "category").s, Strings(Get(f, "actions").items);
      var known := category in KnownCategories;
      Good(Evidence(Get(f, "id").s, Get(f, "revision").i, if known then category else "unknown", actions,
                    Severity(f) == Str("warning"), Get(f, "title").s,
                    if Get(f, "details").Str? then Some(Get(f, "details").s) else None,
                    if known then None else Some(category), Unknown(actions)))
  }

  // --- reconciling revisions --------------------------------------------------------------

  /** Where the evidence for an incident is; the length when there is none. */
  function Slot(failures: seq<Evidence>, id: string): (k: nat)
    ensures k <= |failures| && (k < |failures| ==> failures[k].id == id)
    ensures forall i :: 0 <= i < k ==> failures[i].id != id
  {
    if failures == [] || failures[0].id == id then 0 else 1 + Slot(failures[1..], id)
  }

  predicate Clashes(failures: seq<Evidence>, e: Evidence) {
    var k := Slot(failures, e.id);
    k < |failures| && failures[k].revision == e.revision && failures[k] != e
  }

  /** A newer revision replaces the old one in its place; stale and repeated ones change nothing. */
  function Merged(failures: seq<Evidence>, e: Evidence): seq<Evidence> {
    var k := Slot(failures, e.id);
    if k == |failures| then failures + [e]
    else if e.revision > failures[k].revision then failures[k := e]
    else failures
  }

  /** The failures gathered so far, and whether gathering stopped at a defect, a clash or an exception. */
  datatype Gathered = All(failures: seq<Evidence>) | Invalid(failures: seq<Evidence>) | Threw

  function Gather(failures: seq<Evidence>, raws: seq<Json>): Gathered
    decreases |raws|
  {
    if raws == [] then All(failures)
    else match ReadFailure(raws[0])
      case Defect => Invalid(failures)
      case Raises => Threw
      case Good(e) => if Clashes(failures, e) then Invalid(failures) else Gather(Merged(failures, e), raws[1..])
  }

  // --- records ------------------------------------------------------------------------------

  predicate IsRequest(v: Json, requestId: string, sessionId: string) {
    && v.Obj? && Get(v, "id") == Str(requestId) && Get(v, "method") == Str("session/prompt")
    && Get(v, "params").Obj? && Get(Get(v, "params"), "sessionId") == Str(sessionId)
  }

  predicate IsResponse(v: Json, requestId: string) {
    v.Obj? && Get(v, "id") == Str(requestId) && !Has(v, "method")
  }

  predicate IsUpdate(v: Json, sessionId: string) {
    v.Obj? && Get(v, "method") == Str("session/update") && Get(v, "params").Obj?
    && Get(Get(v, "params"), "sessionId") == Str(sessionId)
  }

  function UpdateOf(v: Json): Json { Get(Get(v, "params"), "update") }

  predicate ReportsUsage(v: Json, sessionId: string) {
    IsUpdate(v, sessionId) && UpdateOf(v).Obj? && Get(UpdateOf(v), "sessionUpdate") == Str("usage_update") && Has(UpdateOf(v), "usage")
  }

  /** The envelope is an object with version 1. */
  predicate ValidEnvelope(air: Json) { air.Obj? && Get(air, "version") == Int(1) }

  predicate Owned(f: Json, requestId: string) {
    f.Obj? && Get(f, "id").Str? && StartsWith(Get(f, "id").s, requestId + ":")
  }

  /** A failure that can be told to belong to another prompt. */
  predicate Foreign(f: Json, requestId: string) {
    f.Obj? && Get(f, "id").Str? && !StartsWith(Get(f, "id").s, requestId + ":")
  }

  /** What a record inside the interval means for the prompt. */
  datatype Look = Skip | Broken | Own(failure: Json)

  function Inspect(v: Json, requestId: string, sessionId: string): Look {
    if !IsUpdate(v, sessionId) || !HasPath(UpdateOf(v), SESSION_FAILURE) then Skip
    else
      var failure := AtPath(UpdateOf(v), SESSION_FAILURE);
      if Foreign(failure, requestId) then Skip
      else if !Owned(failure, requestId) || !ValidEnvelope(AtPath(UpdateOf(v), AIR)) then Broken
      else Own(failure)
  }

  /** The prompt's failures in the interval, or None at a malformed or unsupported one. */
  function Scan(body: seq<Json>, requestId: string, sessionId: string): Option<seq<Json>> {
    if body == [] then Some([])
    else
      var before := Scan(body[..|body| - 1], requestId, sessionId);
      match Inspect(body[|body| - 1], requestId, sessionId)
      case Skip => before
      case Broken => None
      case Own(f) => if before.None? then None else Some(before.value + [f])
  }

  /** The last usage snapshot the interval reports. */
  function NotedUsage(body: seq<Json>, sessionId: string): Option<Usage> {
    if body == [] then None
    else if ReportsUsage(body[|body| - 1], sessionId) then ReadUsage(Get(UpdateOf(body[|body| - 1]), "usage"))
    else NotedUsage(body[..|body| - 1], sessionId)
  }

  function CountRequests(wire: seq<Json>, requestId: string, sessionId: string): nat {
    if wire == [] then 0
    else CountRequests(wire[..|wire| - 1], requestId, sessionId) + if IsRequest(wire[|wire| - 1], requestId, sessionId) then 1 else 0
  }

  function CountResponses(wire: seq<Json>, requestId: string): nat {
    if wire == [] then 0
    else CountResponses(wire[..|wire| - 1], requestId) + if IsResponse(wire[|wire| - 1], requestId) then 1 else 0
  }

  function RequestAt(wire: seq<Json>, requestId: string, sessionId: string): (k: nat)
    ensures k <= |wire|
  {
    if wire == [] || IsRequest(wire[0], requestId, sessionId) then 0 else 1 + RequestAt(wire[1..], requestId, sessionId)
  }

  function ResponseAt(wire: seq<Json>, requestId: string): (k: nat)
    ensures k <= |wire|
  {
    if wire == [] || IsResponse(wire[0], requestId) then 0 else 1 + ResponseAt(wire[1..], requestId)
  }

  // --- the result -----------------------------------------------------------------------------

  datatype Kind = Success | Failed | Cancelled | ProtocolInvalid

  datatype PromptResult = PromptResult(kind: Kind, stopReason: Option<string>, failures: seq<Evidence>, usage: Option<Usage>) | Raised

  predicate ValidError(error: Json) {
    error.Obj? && Get(error, "code").Int? && Get(error, "message").Str?
  }

  function Defective(stop: Option<string>, failures: seq<Evidence>, usage: Option<Usage>): PromptResult {
    PromptResult(ProtocolInvalid, stop, failures, usage)
  }

  function Conclude(stop: string, gathered: Gathered, usage: Option<Usage>): PromptResult {
    match gathered
    case Threw => Raised
    case Invalid(failures) => Defective(Some(stop), failures, usage)
    case All(failures) =>
      PromptResult(if stop == "cancelled" then Cancelled
                   else if stop == "end_turn" && forall e :: e in failures ==> e.warning then Success
                   else Failed, Some(stop), failures, usage)
  }

  /** What the terminal result adds to the failures, or None when it conflicts with the prompt. */
  function Terminal(r: Json, requestId: string): Option<seq<Json>> {
    if HasPath(r, AIR) && !ValidEnvelope(AtPath(r, AIR)) then None
    else if !HasPath(r, SESSION_FAILURE) then Some([])
    else if Owned(AtPath(r, SESSION_FAILURE), requestId) then Some([AtPath(r, SESSION_FAILURE)])
    else None
  }

  function Complete(r: Json, body: seq<Json>, requestId: string, sessionId: string): PromptResult {
    if !r.Obj? then Defective(None, [], None)
    else
      var usage := if Has(r, "usage") then ReadUsage(Get(r, "usage")) else NotedUsage(body, sessionId);
      if !Get(r, "stopReason").Str? then Defective(None, [], usage)
      else
        var stop, updates, last := Get(r, "stopReason").s, Scan(body, requestId, sessionId), Terminal(r, requestId);
        if updates.None? || last.None? then Defective(Some(stop), [], usage)
        else Conclude(stop, Gather([], updates.value + last.value), usage)
  }

  function Finish(response: Json, body: seq<Json>, requestId: string, sessionId: string): PromptResult {
    if Has(response, "result") == Has(response, "error") then Defective(None, [], None)
    else if Has(response, "error") then
      PromptResult(if ValidError(Get(response, "error")) then Failed else ProtocolInvalid, None, [], NotedUsage(body, sessionId))
    else Complete(Get(response, "result"), body, requestId, sessionId)
  }

  function Decode(wire: seq<Json>, requestId: string, sessionId: string): PromptResult {
    if CountRequests(wire, requestId, sessionId) != 1 || CountResponses(wire, requestId) != 1 then Defective(None, [], None)
    else
      var i, j := RequestAt(wire, requestId, sessionId), ResponseAt(wire, requestId);
      if j <= i || j >= |wire| then Defective(None, [], None)
      else Finish(wire[j], wire[i + 1..j], requestId, sessionId)
  }
}

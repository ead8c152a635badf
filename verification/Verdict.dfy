/** What a prompt's result has to be, read off the records of the wire: an account of the decoder that shares
    none of its steps. */
module Verdict {
  import opened Decoder
  import opened Interference
  import opened Json
  import opened Projection
  import opened Reconciliation
  import opened Wrappers

  // --- usage -------------------------------------------------------------------------------

  /** The field holds n, under either spelling, and under both when both are there. */
  predicate FieldSays(v: Json, camel: string, snake: string, n: int) {
    && n >= 0 && (Has(v, camel) || Has(v, snake))
    && (if Has(v, camel) then Get(v, camel) == Int(n) else Get(v, snake) == Int(n))
    && (Has(v, camel) && Has(v, snake) ==>
          var other := Get(v, snake);
          other == Int(n) || other == Float(n as real) || (n == 0 && other == Bool(false)) || (n == 1 && other == Bool(true)))
  }

  /** A complete report: input and output, the cached part if it is reported, and the total or else their sum. */
  predicate UsageSays(v: Json, u: Usage) {
    && FieldSays(v, "inputTokens", "input_tokens", u.input) && FieldSays(v, "outputTokens", "output_tokens", u.output)
    && (match u.cached
        case None => !Has(v, "cachedInputTokens") && !Has(v, "cached_input_tokens")
        case Some(n) => FieldSays(v, "cachedInputTokens", "cached_input_tokens", n))
    && (if Has(v, "totalTokens") || Has(v, "total_tokens") then FieldSays(v, "totalTokens", "total_tokens", u.total)
        else u.total == u.input + u.output)
  }

  lemma FieldIff(v: Json, camel: string, snake: string, n: int)
    ensures UsageField(v, camel, snake) == Some(n) <==> FieldSays(v, camel, snake, n)
  {
  }

  /** A usage report is read precisely as what it says. */
  lemma ReadUsageIff(v: Json, u: Usage)
    ensures ReadUsage(v) == Some(u) <==> UsageSays(v, u)
  {
    hide Has;
    FieldIff(v, "inputTokens", "input_tokens", u.input);
    FieldIff(v, "outputTokens", "output_tokens", u.output);
    FieldIff(v, "totalTokens", "total_tokens", u.total);
    forall n ensures UsageField(v, "cachedInputTokens", "cached_input_tokens") == Some(n)
                     <==> FieldSays(v, "cachedInputTokens", "cached_input_tokens", n)
    {
      FieldIff(v, "cachedInputTokens", "cached_input_tokens", n);
    }
    SaidIsReported(v, "cachedInputTokens", "cached_input_tokens");
    SaidIsReported(v, "totalTokens", "total_tokens");
    hide UsageField;
    hide FieldSays;
  }

  lemma SaidIsReported(v: Json, camel: string, snake: string)
    ensures UsageField(v, camel, snake).Some? ==> Has(v, camel) || Has(v, snake)
  {
  }

  // --- one failure ---------------------------------------------------------------------------

  /** The actions the decoder does not know, in their order. */
  function Strange(actions: seq<string>): seq<string> {
    if actions == [] then []
    else (if actions[0] in {"retry", "new_session", "login"} then [] else [actions[0]]) + Strange(actions[1..])
  }

  lemma {:induction false} StrangeAppend(actions: seq<string>, a: string)
    ensures Strange(actions + [a]) == Strange(actions) + if a in {"retry", "new_session", "login"} then [] else [a]
    decreases |actions|
  {
    if actions == [] {
      assert (actions + [a])[1..] == [] && Strange([]) == [];
    } else {
      assert (actions + [a])[1..] == actions[1..] + [a];
      StrangeAppend(actions[1..], a);
    }
  }

  lemma {:induction false} UnknownIsStrange(actions: seq<string>)
    ensures Unknown(actions) == Strange(actions)
    decreases |actions|
  {
    if actions != [] {
      var n := |actions| - 1;
      UnknownIsStrange(actions[..n]);
      StrangeAppend(actions[..n], actions[n]);
      assert actions[..n] + [actions[n]] == actions;
    }
  }

  /** Everything but details and severity: identity, revision, title, category and actions. */
  predicate CoreSays(f: Json, e: Evidence) {
    && f.Obj? && Get(f, "id") == Str(e.id) && e.id != "" && Get(f, "revision") == Int(e.revision) && e.revision >= 1
    && Get(f, "title") == Str(e.title)
    && Get(f, "category") == Str(if e.unknownCategory.Some? then e.unknownCategory.value else e.category)
    && (if Get(f, "category").s in {"connection", "access", "limit", "request", "service", "unknown"} then e.unknownCategory.None?
        else e.unknownCategory.Some? && e.category == "unknown")
    && Get(f, "actions").Arr? && |Get(f, "actions").items| == |e.actions|
    && (forall i :: 0 <= i < |e.actions| ==> Get(f, "actions").items[i] == Str(e.actions[i]))
    && e.unknownActions == Strange(e.actions)
  }

  /** The failure is this evidence, field by field; a missing severity is an error. */
  predicate FailureSays(f: Json, e: Evidence) {
    && CoreSays(f, e)
    && Get(f, "details") == (if e.details.Some? then Str(e.details.value) else Null)
    && (e.warning <==> Get(f, "severity") == Str("warning"))
    && (Has(f, "severity") ==> Get(f, "severity") in {Str("warning"), Str("error")})
  }

  /** A severity that is an array or an object makes the decoder raise, when everything else is in order. */
  predicate Explosive(f: Json) {
    && f.Obj? && Get(f, "id").Str? && Get(f, "id").s != "" && Get(f, "revision").Int? && Get(f, "revision").i >= 1
    && Get(f, "title").Str? && Get(f, "category").Str?
    && Get(f, "actions").Arr? && (forall i :: 0 <= i < |Get(f, "actions").items| ==> Get(f, "actions").items[i].Str?)
    && (Get(f, "details").Null? || Get(f, "details").Str?)
    && (Get(f, "severity").Arr? || Get(f, "severity").Obj?)
  }

  lemma CoreIff(f: Json, e: Evidence)
    ensures CoreSays(f, e) <==>
              CoreValid(f) && e.id == Get(f, "id").s && e.revision == Get(f, "revision").i && e.title == Get(f, "title").s
              && e.actions == Strings(Get(f, "actions").items) && e.unknownActions == Unknown(e.actions)
              && e.category == (if Get(f, "category").s in KnownCategories then Get(f, "category").s else "unknown")
              && e.unknownCategory == (if Get(f, "category").s in KnownCategories then None else Some(Get(f, "category").s))
  {
    UnknownIsStrange(e.actions);
    hide Unknown;
    hide Strange;
    if CoreSays(f, e) {
      assert Strings(Get(f, "actions").items) == e.actions;
    }
  }

  /** A failure is read precisely as what it says, and raises precisely when it is explosive. */
  lemma ReadFailureIff(f: Json, e: Evidence)
    ensures ReadFailure(f) == Good(e) <==> FailureSays(f, e)
    ensures ReadFailure(f) == Raises <==> Explosive(f)
  {
    CoreIff(f, e);
    hide Unknown;
    hide CoreSays;
    hide Strings;
  }

  // --- records -----------------------------------------------------------------------------------

  function Air(v: Json): Json { Get(Get(Get(v, "_meta"), "jetbrains"), "air") }

  predicate Asks(v: Json, r: string, s: string) {
    && Get(v, "id") == Str(r) && Get(v, "method") == Str("session/prompt")
    && Get(Get(v, "params"), "sessionId") == Str(s)
  }

  predicate Answers(v: Json, r: string) { Get(v, "id") == Str(r) && !Has(v, "method") }

  /** An update of the session. */
  predicate Updates(v: Json, s: string) {
    Get(v, "method") == Str("session/update") && Get(Get(v, "params"), "sessionId") == Str(s)
  }

  function Change(v: Json): Json { Get(Get(v, "params"), "update") }

  predicate TellsFailure(v: Json, s: string) { Updates(v, s) && Has(Air(Change(v)), "sessionFailure") }

  predicate TellsUsage(v: Json, s: string) {
    Updates(v, s) && Get(Change(v), "sessionUpdate") == Str("usage_update") && Has(Change(v), "usage")
  }

  predicate Mine(f: Json, r: string) { Get(f, "id").Str? && r + ":" <= Get(f, "id").s }

  predicate Theirs(f: Json, r: string) { Get(f, "id").Str? && !(r + ":" <= Get(f, "id").s) }

  /** A record that tells a failure has to tell whose it is, and ours have to come in an envelope of version 1. */
  predicate Sound(v: Json, r: string, s: string) {
    TellsFailure(v, s) ==>
      var f := Get(Air(Change(v)), "sessionFailure");
      Theirs(f, r) || (Mine(f, r) && Get(Air(Change(v)), "version") == Int(1))
  }

  /** The result's own envelope has version 1, and its failure is one of the prompt. */
  predicate SoundResult(result: Json, r: string) {
    && (Has(Get(Get(result, "_meta"), "jetbrains"), "air") ==> Get(Air(result), "version") == Int(1))
    && (Has(Air(result), "sessionFailure") ==> Mine(Get(Air(result), "sessionFailure"), r))
  }

  /** The prompt's failures among the records, in their order. */
  function Told(body: seq<Json>, r: string, s: string): seq<Json> {
    if body == [] then []
    else
      var f := Get(Air(Change(body[0])), "sessionFailure");
      (if TellsFailure(body[0], s) && Mine(f, r) then [f] else []) + Told(body[1..], r, s)
  }

  function LastTold(result: Json): seq<Json> {
    if Has(Air(result), "sessionFailure") then [Get(Air(result), "sessionFailure")] else []
  }

  lemma RecordsAgree(v: Json, r: string, s: string)
    ensures IsRequest(v, r, s) == Asks(v, r, s) && IsResponse(v, r) == Answers(v, r)
    ensures IsUpdate(v, s) == Updates(v, s) && ReportsUsage(v, s) == TellsUsage(v, s) && UpdateOf(v) == Change(v)
  {
  }

  lemma OwnershipAgrees(f: Json, r: string)
    ensures Owned(f, r) == Mine(f, r) && Foreign(f, r) == Theirs(f, r)
  {
  }

  /** What the decoder makes of a record: nothing, a defect, or a failure of the prompt. */
  lemma InspectIs(v: Json, r: string, s: string)
    ensures Inspect(v, r, s) ==
              if !Sound(v, r, s) then Broken
              else if TellsFailure(v, s) && Mine(Get(Air(Change(v)), "sessionFailure"), r)
              then Own(Get(Air(Change(v)), "sessionFailure"))
              else Skip
  {
    RecordsAgree(v, r, s);
    Paths(UpdateOf(v));
    OwnershipAgrees(Get(Air(Change(v)), "sessionFailure"), r);
    hide HasPath;
    hide AtPath;
    hide Owned;
    hide Foreign;
    hide Updates;
    hide IsUpdate;
    hide Theirs;
    assert Theirs(Get(Air(Change(v)), "sessionFailure"), r) ==> !Mine(Get(Air(Change(v)), "sessionFailure"), r) by { OneOwner(Get(Air(Change(v)), "sessionFailure"), r); }
    hide Mine;
  }

  lemma OneOwner(f: Json, r: string)
    ensures !(Theirs(f, r) && Mine(f, r))
  {
  }

  lemma {:induction false} ScanIs(body: seq<Json>, r: string, s: string)
    ensures Scan(body, r, s) ==
              if forall k :: 0 <= k < |body| ==> Sound(body[k], r, s) then Some(Told(body, r, s)) else None
    decreases |body|
  {
    hide Sound;
    hide TellsFailure;
    hide Mine;
    hide Inspect;
    if body == [] {
      assert Scan(body, r, s) == Some([]);
    } else {
      var v, rest := body[0], body[1..];
      assert body == [v] + rest;
      InspectIs(v, r, s);
      ScanAdds([v], rest, r, s);
      ScanOne(v, r, s);
      ScanIs(rest, r, s);
      assert (forall k :: 0 <= k < |body| ==> Sound(body[k], r, s))
             <==> Sound(v, r, s) && forall k :: 0 <= k < |rest| ==> Sound(rest[k], r, s) by {
        assert forall k :: 0 < k < |body| ==> body[k] == rest[k - 1];
      }
      hide Scan;
    }
  }

  lemma TerminalIs(result: Json, r: string)
    ensures Terminal(result, r) == if SoundResult(result, r) then Some(LastTold(result)) else None
  {
    Paths(result);
    OwnershipAgrees(Get(Air(result), "sessionFailure"), r);
    hide HasPath;
    hide AtPath;
    hide Owned;
    hide Mine;
  }

  // --- the last usage report -------------------------------------------------------------------------

  /** The usage of the last report in the interval, if there is one and it is complete. */
  ghost predicate Noted(body: seq<Json>, s: string, usage: Option<Usage>) {
    if exists k :: LastReport(body, s, k) then
      forall k :: LastReport(body, s, k) ==> UsageIs(Get(Change(body[k]), "usage"), usage)
    else usage == None
  }

  predicate LastReport(body: seq<Json>, s: string, k: int) {
    0 <= k < |body| && TellsUsage(body[k], s) && forall l :: k < l < |body| ==> !TellsUsage(body[l], s)
  }

  ghost predicate UsageIs(v: Json, usage: Option<Usage>) {
    match usage
    case Some(u) => UsageSays(v, u)
    case None => forall u :: !UsageSays(v, u)
  }

  lemma ReadUsageIs(v: Json)
    ensures UsageIs(v, ReadUsage(v))
  {
    hide ReadUsage;
    hide UsageSays;
    forall u ensures ReadUsage(v) == Some(u) <==> UsageSays(v, u) { ReadUsageIff(v, u); }
  }

  lemma {:induction false} NotedIs(body: seq<Json>, s: string)
    ensures Noted(body, s, NotedUsage(body, s))
    decreases |body|
  {
    hide TellsUsage;
    hide ReportsUsage;
    hide ReadUsage;
    hide UsageIs;
    if body != [] {
      var n := |body| - 1;
      RecordsAgree(body[n], "", s);
      if TellsUsage(body[n], s) {
        ReadUsageIs(Get(Change(body[n]), "usage"));
        assert LastReport(body, s, n);
      } else {
        NotedIs(body[..n], s);
        forall k ensures LastReport(body, s, k) <==> LastReport(body[..n], s, k) {
          if LastReport(body[..n], s, k) {
            forall l | k < l < |body| ensures !TellsUsage(body[l], s) { if l < n { assert body[..n][l] == body[l]; } }
          }
        }
      }
    }
  }

  // --- the failures that were told --------------------------------------------------------------------

  /** es is what the first failures say, and none of them takes back what an earlier one of its revision said. */
  ghost predicate ReadSoFar(raws: seq<Json>, es: seq<Evidence>) {
    |es| <= |raws| && forall i :: 0 <= i < |es| ==> FailureSays(raws[i], es[i]) && !ClashAt(es, i)
  }

  /** Reading on is not possible: the next failure is no evidence, or takes back an earlier one. */
  ghost predicate Stuck(raws: seq<Json>, es: seq<Evidence>) {
    |es| < |raws| && !Explosive(raws[|es|]) && forall e :: FailureSays(raws[|es|], e) ==> ClashAt(es + [e], |es|)
  }

  /** The incidents in the order in which they first came up. */
  function Incidents(es: seq<Evidence>): seq<string> {
    if es == [] then []
    else
      var n := |es| - 1;
      Incidents(es[..n]) + if exists i :: 0 <= i < n && es[i].id == es[n].id then [] else [es[n].id]
  }

  /** One failure an incident, each the one that counts, in that order. */
  ghost predicate Lists(fs: seq<Evidence>, es: seq<Evidence>) {
    && Represents(fs, es) && |fs| == |Incidents(es)| && forall k :: 0 <= k < |fs| ==> fs[k].id == Incidents(es)[k]
  }

  lemma MergedLists(fs: seq<Evidence>, es: seq<Evidence>, e: Evidence)
    requires Lists(fs, es)
    ensures Lists(Merged(fs, e), es + [e])
  {
    MergedRepresents(fs, es, e);
    var more := es + [e];
    assert more[..|es|] == es && more[|es|] == e;
    assert Lookup(fs, e.id) == Top(es, e.id);
    TopIsNewest(es, e.id);
    assert Slot(fs, e.id) < |fs| <==> exists i :: 0 <= i < |es| && more[i].id == e.id by {
      if i :| 0 <= i < |es| && more[i].id == e.id { assert es[i] in es; }
      if Slot(fs, e.id) < |fs| {
        var i :| 0 <= i < |es| && es[i] == Top(es, e.id).value;
        assert more[i].id == e.id;
      }
    }
    hide Represents;
    hide Top;
  }

  lemma {:induction false} GatherReads(fs: seq<Evidence>, before: seq<Json>, es: seq<Evidence>, raws: seq<Json>) returns (all: seq<Evidence>)
    requires |es| == |before| && ReadSoFar(before, es) && Lists(fs, es)
    ensures ReadSoFar(before + raws, all)
    ensures var g := Gather(fs, raws);
            && (g.All? ==> |all| == |before| + |raws| && Lists(g.failures, all))
            && (g.Invalid? ==> Stuck(before + raws, all) && Lists(g.failures, all))
            && (g.Threw? ==> |all| < |before| + |raws| && Explosive((before + raws)[|all|]))
    decreases |raws|
  {
    hide ReadFailure;
    hide FailureSays;
    hide Explosive;
    assert Represents(fs, es);
    hide Lists;
    hide Represents;
    hide Clashes;
    hide Merged;
    all := es;
    if raws == [] {
      assert before + raws == before;
    } else {
      var f := raws[0];
      assert (before + raws)[|es|] == f;
      assert forall i :: 0 <= i < |es| ==> (before + raws)[i] == before[i];
      forall e ensures ReadFailure(f) == Good(e) <==> FailureSays(f, e) { ReadFailureIff(f, e); }
      assert ReadFailure(f) == Raises <==> Explosive(f) by { ReadFailureIff(f, Evidence("", 0, "", [], false, "", None, None, [])); }
      if ReadFailure(f).Good? {
        var e := ReadFailure(f).evidence;
        MergedRepresents(fs, es, e);
        MergedLists(fs, es, e);
        if !Clashes(fs, e) {
          assert before + raws == (before + [f]) + raws[1..];
          forall i | 0 <= i < |es| ensures ClashAt(es + [e], i) <==> ClashAt(es, i) { ClashAtPrefix(es, [e], i); }
          hide ClashAt;
          all := GatherReads(Merged(fs, e), before + [f], es + [e], raws[1..]);
        }
      }
    }
  }

  lemma EffectiveIsGathered(fs: seq<Evidence>, es: seq<Evidence>, e: Evidence)
    requires Represents(fs, es)
    ensures e in fs <==> Top(es, e.id) == Some(e)
  {
    hide Top;
    assert Lookup(fs, e.id) == Top(es, e.id);
    if e in fs {
      var k :| 0 <= k < |fs| && fs[k] == e;
      SlotIs(fs, e.id, k);
    }
  }

  /** The i-th evidence is the one that counts for its incident. */
  predicate Effective(es: seq<Evidence>, i: nat)
    requires i < |es|
  {
    Top(es, es[i].id) == Some(es[i])
  }

  /** How a prompt ends when its failures can all be read: cancelled; or a success, when it came to its end and every
      incident is a warning in the end; or failed. */
  ghost predicate EndsAs(stop: string, raws: seq<Json>, es: seq<Evidence>, kind: Kind)
    requires |es| == |raws|
  {
    && (kind == Cancelled <==> stop == "cancelled")
    && (kind == Success <==>
          stop == "end_turn" && forall i: nat :: i < |es| && Effective(es, i) ==> Get(raws[i], "severity") == Str("warning"))
    && kind != ProtocolInvalid
  }

  /** What the told failures make of the prompt. */
  ghost predicate Concluded(stop: string, raws: seq<Json>, d: PromptResult) {
    exists es :: ReadSoFar(raws, es) && ConcludedWith(stop, raws, es, d)
  }

  ghost predicate ConcludedWith(stop: string, raws: seq<Json>, es: seq<Evidence>, d: PromptResult)
    requires |es| <= |raws|
  {
    if |es| == |raws| then
      d.PromptResult? && EndsAs(stop, raws, es, d.kind) && d.stopReason == Some(stop) && Lists(d.failures, es)
    else if Explosive(raws[|es|]) then d.Raised?
    else
      Stuck(raws, es) && d.PromptResult? && d.kind == ProtocolInvalid && d.stopReason == Some(stop) && Lists(d.failures, es)
  }

  lemma SameWarnings(raws: seq<Json>, es: seq<Evidence>, fs: seq<Evidence>)
    requires |es| == |raws| && ReadSoFar(raws, es) && Represents(fs, es)
    ensures (forall e :: e in fs ==> e.warning)
            <==> forall i: nat :: i < |es| && Effective(es, i) ==> Get(raws[i], "severity") == Str("warning")
  {
    hide Top;
    hide CoreSays;
    hide Represents;
    hide ClashAt;
    forall e ensures e in fs <==> Top(es, e.id) == Some(e) { EffectiveIsGathered(fs, es, e); }
    forall i: nat | i < |es| ensures es[i].warning <==> Get(raws[i], "severity") == Str("warning") {
      assert FailureSays(raws[i], es[i]);
    }
    forall e | e in fs ensures exists i: nat :: i < |es| && Effective(es, i) && es[i] == e {
      TopIsNewest(es, e.id);
    }
  }

  lemma ConcludeIs(stop: string, raws: seq<Json>, usage: Option<Usage>)
    ensures Concluded(stop, raws, Conclude(stop, Gather([], raws), usage))
  {
    hide Gather;
    hide Stuck;
    hide ClashAt;
    hide FailureSays;
    hide Explosive;
    assert Lists([], []) && ReadSoFar([], []) && [] + raws == raws;
    var es := GatherReads([], [], [], raws);
    var g := Gather([], raws);
    hide Represents;
    hide Incidents;
    if g.All? { SameWarnings(raws, es, g.failures); }
    NotBoth(raws, es);
    assert ConcludedWith(stop, raws, es, Conclude(stop, g, usage));
  }

  lemma NotBoth(raws: seq<Json>, es: seq<Evidence>)
    ensures Stuck(raws, es) ==> |es| < |raws| && !Explosive(raws[|es|])
  {
  }

  // --- the whole wire ------------------------------------------------------------------------------------

  /** i is the only request of the prompt and j its only response, which comes later. */
  ghost predicate Between(wire: seq<Json>, r: string, s: string, i: nat, j: nat) {
    && i < j < |wire| && Asks(wire[i], r, s) && Answers(wire[j], r)
    && (forall k :: 0 <= k < |wire| && k != i ==> !Asks(wire[k], r, s))
    && (forall k :: 0 <= k < |wire| && k != j ==> !Answers(wire[k], r))
  }

  const Invalid := PromptResult(ProtocolInvalid, None, [], None)

  /** The result's own report counts, or else the last one in the interval. */
  ghost predicate UsageCounts(result: Json, body: seq<Json>, s: string, usage: Option<Usage>) {
    if Has(result, "usage") then UsageIs(Get(result, "usage"), usage) else Noted(body, s, usage)
  }

  ghost predicate JudgedResult(result: Json, body: seq<Json>, r: string, s: string, d: PromptResult) {
    if !result.Obj? then d == Invalid
    else
      && (d.PromptResult? ==> UsageCounts(result, body, s, d.usage))
      && if !Get(result, "stopReason").Str? then d == Invalid.(usage := if d.PromptResult? then d.usage else None)
         else
           var stop := Get(result, "stopReason").s;
           if SoundResult(result, r) && forall k :: 0 <= k < |body| ==> Sound(body[k], r, s) then
             Concluded(stop, Told(body, r, s) + LastTold(result), d)
           else d.PromptResult? && d == PromptResult(ProtocolInvalid, Some(stop), [], d.usage)
  }

  /** Exactly one of result and error; an error that is well formed is a failure of the prompt. */
  ghost predicate JudgedResponse(v: Json, body: seq<Json>, r: string, s: string, d: PromptResult) {
    if Has(v, "result") == Has(v, "error") then d == Invalid
    else if Has(v, "result") then JudgedResult(Get(v, "result"), body, r, s, d)
    else
      && d.PromptResult? && d.stopReason == None && d.failures == [] && Noted(body, s, d.usage)
      && d.kind == if Get(Get(v, "error"), "code").Int? && Get(Get(v, "error"), "message").Str? then Failed else ProtocolInvalid
  }

  /** What the result of a prompt has to be, for every wire. */
  ghost predicate Judged(wire: seq<Json>, r: string, s: string, d: PromptResult) {
    if exists i: nat, j: nat :: Between(wire, r, s, i, j) then
      forall i: nat, j: nat :: Between(wire, r, s, i, j) ==> JudgedResponse(wire[j], wire[i + 1..j], r, s, d)
    else d == Invalid
  }

  lemma CompleteIsJudged(result: Json, body: seq<Json>, r: string, s: string)
    ensures JudgedResult(result, body, r, s, Complete(result, body, r, s))
  {
    hide Scan;
    hide Told;
    hide Sound;
    hide Terminal;
    hide SoundResult;
    hide Gather;
    hide Conclude;
    hide Concluded;
    hide NotedUsage;
    hide Noted;
    hide ReadUsage;
    hide UsageIs;
    ScanIs(body, r, s);
    TerminalIs(result, r);
    NotedIs(body, s);
    ReadUsageIs(Get(result, "usage"));
    if Get(result, "stopReason").Str? {
      var usage := if Has(result, "usage") then ReadUsage(Get(result, "usage")) else NotedUsage(body, s);
      ConcludeIs(Get(result, "stopReason").s, Told(body, r, s) + LastTold(result), usage);
      ConcludeUsage(Get(result, "stopReason").s, Gather([], Told(body, r, s) + LastTold(result)), usage);
    }
  }

  lemma ConcludeUsage(stop: string, g: Gathered, usage: Option<Usage>)
    ensures Conclude(stop, g, usage).PromptResult? ==> Conclude(stop, g, usage).usage == usage
  {
  }

  lemma FinishIsJudged(v: Json, body: seq<Json>, r: string, s: string)
    ensures JudgedResponse(v, body, r, s, Finish(v, body, r, s))
  {
    hide Complete;
    hide JudgedResult;
    hide NotedUsage;
    hide Noted;
    NotedIs(body, s);
    CompleteIsJudged(Get(v, "result"), body, r, s);
  }

  lemma {:induction false} NoneCounted(wire: seq<Json>, r: string, s: string)
    ensures CountRequests(wire, r, s) == 0 <==> forall k :: 0 <= k < |wire| ==> !Asks(wire[k], r, s)
    ensures CountResponses(wire, r) == 0 <==> forall k :: 0 <= k < |wire| ==> !Answers(wire[k], r)
    decreases |wire|
  {
    hide IsRequest;
    hide IsResponse;
    hide Asks;
    hide Answers;
    if wire != [] {
      var n := |wire| - 1;
      RecordsAgree(wire[n], r, s);
      NoneCounted(wire[..n], r, s);
      assert forall k :: 0 <= k < n ==> wire[..n][k] == wire[k];
    }
  }

  lemma OneCounted(wire: seq<Json>, r: string, s: string, i: nat)
    requires i < |wire|
    ensures Asks(wire[i], r, s) ==>
              (CountRequests(wire, r, s) == 1 <==> forall k :: 0 <= k < |wire| && k != i ==> !Asks(wire[k], r, s))
    ensures Answers(wire[i], r) ==>
              (CountResponses(wire, r) == 1 <==> forall k :: 0 <= k < |wire| && k != i ==> !Answers(wire[k], r))
  {
    hide IsRequest;
    hide IsResponse;
    hide Asks;
    hide Answers;
    var a, b := wire[..i], wire[i + 1..];
    assert wire == a + [wire[i]] + b;
    RecordsAgree(wire[i], r, s);
    CountsAdd(a, [wire[i]], r, s);
    CountsAdd(a + [wire[i]], b, r, s);
    OneCount(wire[i], r, s);
    NoneCounted(a, r, s);
    NoneCounted(b, r, s);
    hide CountRequests;
    hide CountResponses;
    assert forall k :: 0 <= k < i ==> a[k] == wire[k];
    assert forall k :: i < k < |wire| ==> wire[k] == b[k - i - 1];
    assert forall k :: 0 <= k < |b| ==> b[k] == wire[i + 1 + k];
  }

  lemma OneCount(v: Json, r: string, s: string)
    ensures CountRequests([v], r, s) == (if IsRequest(v, r, s) then 1 else 0) && CountResponses([v], r) == (if IsResponse(v, r) then 1 else 0)
  {
    hide IsRequest;
    hide IsResponse;
    assert [v][..0] == [];
    assert CountRequests([], r, s) == 0 && CountResponses([], r) == 0;
  }

  lemma {:induction false} FirstAt(wire: seq<Json>, r: string, s: string)
    ensures var i := RequestAt(wire, r, s); i < |wire| ==> Asks(wire[i], r, s)
    ensures forall k :: 0 <= k < RequestAt(wire, r, s) ==> !Asks(wire[k], r, s)
    ensures var j := ResponseAt(wire, r); j < |wire| ==> Answers(wire[j], r)
    ensures forall k :: 0 <= k < ResponseAt(wire, r) ==> !Answers(wire[k], r)
    decreases |wire|
  {
    hide IsRequest;
    hide IsResponse;
    hide Asks;
    hide Answers;
    if wire != [] {
      RecordsAgree(wire[0], r, s);
      FirstAt(wire[1..], r, s);
      assert forall k :: 0 < k < |wire| ==> wire[k] == wire[1..][k - 1];
    }
  }

  /** The decoder gives every wire the result it has to have. */
  lemma DecodeIsJudged(wire: seq<Json>, r: string, s: string)
    ensures Judged(wire, r, s, Decode(wire, r, s))
  {
    hide CountRequests;
    hide CountResponses;
    hide RequestAt;
    hide ResponseAt;
    hide Finish;
    hide JudgedResponse;
    hide Asks;
    hide Answers;
    var i, j := RequestAt(wire, r, s), ResponseAt(wire, r);
    FirstAt(wire, r, s);
    NoneCounted(wire, r, s);
    if i < |wire| { OneCounted(wire, r, s, i); }
    if j < |wire| { OneCounted(wire, r, s, j); }
    forall k: nat, l: nat | Between(wire, r, s, k, l)
      ensures k == i && l == j && CountRequests(wire, r, s) == 1 && CountResponses(wire, r) == 1
    {
    }
    if Between(wire, r, s, i, j) { FinishIsJudged(wire[j], wire[i + 1..j], r, s); }
  }
}

/** The bounded projection of wire records, and why decoding it gives the verdict of the wire itself. */
module Projection {
  import opened Decoder
  import opened Interference
  import opened Json
  import opened Wrappers

  // --- projecting a failure --------------------------------------------------------------

  const TextFields := {"id", "category", "severity", "title", "details"}
  const FailureFields := TextFields + {"revision", "actions"}

  /** A malformed scalar is kept as evidence of its type, a container never. */
  function SafeText(v: Json): Json {
    if Container(v) then Null else v
  }

  function ProjectField(key: string, v: Json): Json {
    if key == "revision" then (if v.Int? then v else Null)
    else if key == "actions" then
      if v.Arr? then Arr(seq(|v.items|, i requires 0 <= i < |v.items| => if v.items[i].Str? then v.items[i] else Null)) else Null
    else SafeText(v)
  }

  function ProjectFailure(f: Json): Json {
    if f.Obj? then Obj(map k | k in FailureFields && k in f.fields :: ProjectField(k, f.fields[k])) else Null
  }

  /** The container was the one thing wrong with the failure, or would have raised. */
  predicate Harmful(f: Json) {
    var details, severity := Get(f, "details"), Severity(f);
    CoreValid(f) && ((Container(details) && ValidSeverity(severity)) || (ValidDetails(details) && Container(severity)))
  }

  lemma ProjectedField(f: Json, key: string)
    requires f.Obj? && key in FailureFields
    ensures Has(ProjectFailure(f), key) == Has(f, key)
    ensures Get(ProjectFailure(f), key) == if Has(f, key) then ProjectField(key, Get(f, key)) else Null
  {
  }

  lemma ProjectedActions(v: Json)
    ensures var p := ProjectField("actions", v);
            && (p.Arr? <==> v.Arr?) && (v.Arr? ==> (AllStrings(p.items) <==> AllStrings(v.items)))
            && (v.Arr? && AllStrings(v.items) ==> p == v)
  {
    var p := ProjectField("actions", v);
    if v.Arr? {
      assert forall i :: 0 <= i < |v.items| ==> (p.items[i].Str? <==> v.items[i].Str?);
      if AllStrings(v.items) { assert p.items == v.items; }
    }
  }

  lemma CoreProjected(f: Json)
    requires f.Obj?
    ensures var p := ProjectFailure(f);
            && (CoreValid(p) <==> CoreValid(f))
            && (CoreValid(f) ==> Get(p, "id") == Get(f, "id") && Get(p, "revision") == Get(f, "revision")
                                 && Get(p, "title") == Get(f, "title") && Get(p, "category") == Get(f, "category")
                                 && Get(p, "actions") == Get(f, "actions"))
            && Get(p, "details") == SafeText(Get(f, "details"))
            && Severity(p) == SafeText(Severity(f))
  {
    ProjectedField(f, "id");
    ProjectedField(f, "revision");
    ProjectedField(f, "title");
    ProjectedField(f, "category");
    ProjectedField(f, "actions");
    ProjectedField(f, "details");
    ProjectedField(f, "severity");
    ProjectedActions(Get(f, "actions"));
    hide ProjectFailure;
    hide AllStrings;
  }

  /** Reading the projection of a failure gives the same as reading the failure, precisely unless it is harmful. */
  lemma ProjectionReadsSame(f: Json)
    requires f.Obj?
    ensures ReadFailure(ProjectFailure(f)) == ReadFailure(f) <==> !Harmful(f)
  {
    CoreProjected(f);
    hide ProjectFailure;
    hide CoreValid;
    hide Unknown;
  }

  /** What the harm is: a failure the decoder refuses becomes acceptable evidence, or an exception of
      the decoder becomes a refusal. */
  lemma HarmDone(f: Json)
    requires Harmful(f)
    ensures if Container(Get(f, "details")) then
              && ReadFailure(f) == Defect && ReadFailure(ProjectFailure(f)).Good?
              && (ReadFailure(ProjectFailure(f)).evidence.warning <==> Get(f, "severity") == Str("warning"))
            else ReadFailure(f) == Raises && ReadFailure(ProjectFailure(f)) == Defect
  {
    CoreProjected(f);
    hide ProjectFailure;
    hide CoreValid;
    hide Unknown;
  }

  lemma OwnershipProjected(f: Json, r: string)
    ensures Owned(ProjectFailure(f), r) == Owned(f, r) && Foreign(ProjectFailure(f), r) == Foreign(f, r)
  {
    if f.Obj? { ProjectedField(f, "id"); }
    hide ProjectFailure;
    hide StartsWith;
  }

  // --- projecting an envelope ------------------------------------------------------------------

  function ProjectAir(air: Json): Json {
    if !air.Obj? then Obj(map["version" := Null])
    else
      var version := if Get(air, "version").Int? then Get(air, "version") else Null;
      if Has(air, "sessionFailure") then Obj(map["version" := version, "sessionFailure" := ProjectFailure(Get(air, "sessionFailure"))])
      else Obj(map["version" := version])
  }

  function Meta(air: Json): Json {
    Obj(map["jetbrains" := Obj(map["air" := air])])
  }

  lemma EnvelopeProjected(air: Json)
    ensures ValidEnvelope(ProjectAir(air)) == ValidEnvelope(air)
    ensures Has(ProjectAir(air), "sessionFailure") == Has(air, "sessionFailure")
    ensures Has(air, "sessionFailure") ==> Get(ProjectAir(air), "sessionFailure") == ProjectFailure(Get(air, "sessionFailure"))
  {
    hide ProjectFailure;
  }

  lemma Paths(v: Json)
    ensures HasPath(v, AIR) <==> Has(v, "_meta") && Has(Get(v, "_meta"), "jetbrains") && Has(Get(Get(v, "_meta"), "jetbrains"), "air")
    ensures AtPath(v, AIR) == Get(Get(Get(v, "_meta"), "jetbrains"), "air")
    ensures HasPath(v, SESSION_FAILURE) <==> HasPath(v, AIR) && Has(AtPath(v, AIR), "sessionFailure")
    ensures AtPath(v, SESSION_FAILURE) == Get(AtPath(v, AIR), "sessionFailure")
  {
    hide Has;
    hide Get;
    var meta, jetbrains, air := Get(v, "_meta"), Get(Get(v, "_meta"), "jetbrains"), Get(Get(Get(v, "_meta"), "jetbrains"), "air");
    PathStep(v, AIR);
    PathStep(meta, ["jetbrains", "air"]);
    PathStep(jetbrains, ["air"]);
    PathStep(v, SESSION_FAILURE);
    PathStep(meta, ["jetbrains", "air", "sessionFailure"]);
    PathStep(jetbrains, ["air", "sessionFailure"]);
    PathStep(air, ["sessionFailure"]);
    assert ["jetbrains", "air"][1..] == ["air"] && ["air"][1..] == [] && ["air", "sessionFailure"][1..] == ["sessionFailure"];
    assert ["jetbrains", "air", "sessionFailure"][1..] == ["air", "sessionFailure"] && ["sessionFailure"][1..] == [];
    assert AIR[1..] == ["jetbrains", "air"] && SESSION_FAILURE[1..] == ["jetbrains", "air", "sessionFailure"];
  }

  lemma PathStep(v: Json, keys: seq<string>)
    requires keys != []
    ensures HasPath(v, keys) == (Has(v, keys[0]) && HasPath(Get(v, keys[0]), keys[1..]))
    ensures AtPath(v, keys) == AtPath(Get(v, keys[0]), keys[1..])
  {
  }

  lemma MetaPaths(v: Json, air: Json)
    requires v.Obj? && Has(v, "_meta") && Get(v, "_meta") == Meta(air)
    ensures HasPath(v, AIR) && AtPath(v, AIR) == air
    ensures HasPath(v, SESSION_FAILURE) == Has(air, "sessionFailure") && AtPath(v, SESSION_FAILURE) == Get(air, "sessionFailure")
  {
    Paths(v);
    hide HasPath;
    hide AtPath;
  }

  // --- projecting a notification ------------------------------------------------------------------

  function UpdateRecord(s: string, update: Json): Json {
    Obj(map["method" := Str("session/update"), "params" := Obj(map["sessionId" := Str(s), "update" := update])])
  }

  predicate Progress(update: Json) {
    Get(update, "sessionUpdate") == Str("agent_message_chunk")
  }

  const ProgressUpdate := Obj(map["sessionUpdate" := Str("agent_message_chunk")])

  /** The record kept of a notification: its AIR envelope, or else that the agent made progress. */
  function Keep(v: Json, s: string): seq<Json> {
    if !IsUpdate(v, s) || !UpdateOf(v).Obj? then []
    else if HasPath(UpdateOf(v), AIR) then
      [UpdateRecord(s, Obj(map["_meta" := Meta(ProjectAir(AtPath(UpdateOf(v), AIR)))]))]
    else if Progress(UpdateOf(v)) then [UpdateRecord(s, ProgressUpdate)]
    else []
  }

  function KeepAll(values: seq<Json>, s: string): seq<Json> {
    if values == [] then [] else KeepAll(values[..|values| - 1], s) + Keep(values[|values| - 1], s)
  }

  lemma RecordIsUpdate(s: string, update: Json)
    ensures IsUpdate(UpdateRecord(s, update), s) && UpdateOf(UpdateRecord(s, update)) == update
  {
  }

  /** What a projected record means for the prompt is what the wire record meant. */
  lemma KeptMeansSame(v: Json, r: string, s: string)
    ensures Scan(Keep(v, s), r, s) ==
              match Inspect(v, r, s)
              case Skip => Some([])
              case Broken => None
              case Own(f) => Some([ProjectFailure(f)])
  {
    hide IsUpdate;
    hide StartsWith;
    hide HasPath;
    hide AtPath;
    hide ProjectFailure;
    var u := UpdateOf(v);
    Paths(u);
    if IsUpdate(v, s) && u.Obj? && HasPath(u, AIR) {
      var air := AtPath(u, AIR);
      var update := Obj(map["_meta" := Meta(ProjectAir(air))]);
      RecordIsUpdate(s, update);
      MetaPaths(update, ProjectAir(air));
      EnvelopeProjected(air);
      OwnershipProjected(Get(air, "sessionFailure"), r);
      ScanOne(UpdateRecord(s, update), r, s);
    } else if IsUpdate(v, s) && u.Obj? && Progress(u) {
      RecordIsUpdate(s, ProgressUpdate);
      Paths(ProgressUpdate);
      ScanOne(UpdateRecord(s, ProgressUpdate), r, s);
    }
  }

  lemma ScanOne(v: Json, r: string, s: string)
    ensures Scan([v], r, s) == match Inspect(v, r, s) case Skip => Some([]) case Broken => None case Own(f) => Some([f])
  {
    hide Inspect;
    assert [v][..0] == [];
    assert Scan([], r, s) == Some([]);
    if Inspect(v, r, s).Own? { assert [] + [Inspect(v, r, s).failure] == [Inspect(v, r, s).failure]; }
  }

  function ProjectFailures(fs: seq<Json>): (ps: seq<Json>)
    ensures |ps| == |fs| && forall i :: 0 <= i < |fs| ==> ps[i] == ProjectFailure(fs[i])
  {
    seq(|fs|, i requires 0 <= i < |fs| => ProjectFailure(fs[i]))
  }

  lemma {:induction false} ScanKept(values: seq<Json>, r: string, s: string)
    ensures Scan(KeepAll(values, s), r, s) ==
              if Scan(values, r, s).None? then None else Some(ProjectFailures(Scan(values, r, s).value))
    decreases |values|
  {
    hide Inspect;
    hide Keep;
    hide ProjectFailure;
    if values == [] {
      assert Scan(values, r, s) == Some([]) && ProjectFailures([]) == [];
    } else {
      var n := |values| - 1;
      ScanKept(values[..n], r, s);
      ScanAdds(KeepAll(values[..n], s), Keep(values[n], s), r, s);
      KeptMeansSame(values[n], r, s);
      if Scan(values, r, s).Some? { assert Scan(KeepAll(values, s), r, s).value == ProjectFailures(Scan(values, r, s).value); }
    }
  }

  // --- projecting the response ---------------------------------------------------------------------

  /** The same failures in the result that ends the prompt. */
  function ProjectResult(result: Json, usage: Option<Json>): Json {
    if !result.Obj? then Null
    else
      var reason := if Get(result, "stopReason").Str? then Get(result, "stopReason") else Null;
      var stop := if Has(result, "stopReason") then map["stopReason" := reason] else map[];
      var used := if usage.Some? then map["usage" := usage.value] else map[];
      var meta := if HasPath(result, AIR) then map["_meta" := Meta(ProjectAir(AtPath(result, AIR)))] else map[];
      Obj(stop + used + meta)
  }

  function ProjectError(error: Json): Json {
    if !error.Obj? then Null
    else Obj(map["code" := if Get(error, "code").Int? then Get(error, "code") else Null,
                 "message" := if Get(error, "message").Str? then Get(error, "message") else Null])
  }

  lemma ErrorProjected(error: Json)
    ensures ValidError(ProjectError(error)) == ValidError(error)
  {
  }

  lemma ResultProjected(result: Json, usage: Option<Json>, r: string)
    requires result.Obj?
    ensures var p := ProjectResult(result, usage);
            && p.Obj? && (Get(p, "stopReason").Str? <==> Get(result, "stopReason").Str?)
            && (Get(result, "stopReason").Str? ==> Get(p, "stopReason") == Get(result, "stopReason"))
            && (Terminal(p, r).None? <==> Terminal(result, r).None?)
            && (Terminal(result, r).Some? ==> Terminal(p, r) == Some(ProjectFailures(Terminal(result, r).value)))
  {
    hide StartsWith;
    hide ProjectFailure;
    hide HasPath;
    hide AtPath;
    var p, air := ProjectResult(result, usage), AtPath(result, AIR);
    Paths(result);
    Paths(p);
    if HasPath(result, AIR) {
      MetaPaths(p, ProjectAir(air));
      EnvelopeProjected(air);
      OwnershipProjected(Get(air, "sessionFailure"), r);
    }
    if Terminal(result, r).Some? { assert ProjectFailures(Terminal(result, r).value) == Terminal(p, r).value; }
  }

  // --- the verdict is the same ----------------------------------------------------------------------

  predicate NoneHarmful(fs: seq<Json>) {
    forall i :: 0 <= i < |fs| ==> fs[i].Obj? && !Harmful(fs[i])
  }

  lemma {:induction false} GatherProjected(failures: seq<Evidence>, fs: seq<Json>)
    requires NoneHarmful(fs)
    ensures Gather(failures, ProjectFailures(fs)) == Gather(failures, fs)
    decreases |fs|
  {
    hide ReadFailure;
    hide ProjectFailure;
    hide Harmful;
    hide Clashes;
    hide Merged;
    if fs != [] {
      ProjectionReadsSame(fs[0]);
      assert ProjectFailures(fs)[1..] == ProjectFailures(fs[1..]);
      if ReadFailure(fs[0]).Good? { GatherProjected(Merged(failures, ReadFailure(fs[0]).evidence), fs[1..]); }
    }
  }
}

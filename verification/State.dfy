/** The state class: task creation, atomic approval of proposals, and dependency readiness. */
module State {
  import opened Digraph
  import Machine = Lifecycle
  import opened Proposals
  import opened TaskIds
  import opened Tasks
  import opened Texts
  import opened Wrappers

  datatype ProposalStatus = Pending | Approved | Rejected | Superseded

  datatype Proposal = Proposal(project: string, specs: seq<Spec>, status: ProposalStatus, findings: seq<Finding>)

  /** What every task of a batch must satisfy for the batch to be written. */
  predicate Acceptable(projects: set<string>, tasks: map<string, Task>, project: string, specs: seq<Spec>) {
    && Homely(tasks, project, specs)
    && forall i :: 0 <= i < |specs| ==>
         && specs[i].project in projects
         && !Blank(specs[i].title) && !Blank(specs[i].objective) && specs[i].budget >= 1
  }

  predicate FieldsAcceptable(projects: set<string>, tasks: map<string, Task>, project: string, spec: Spec) {
    && spec.project == project && project in projects
    && !Blank(spec.title) && !Blank(spec.objective) && spec.budget >= 1
    && forall d :: d in spec.deps && d in tasks ==> tasks[d].project == project
  }

  lemma AcceptableGrows(projects: set<string>, tasks: map<string, Task>, project: string, specs: seq<Spec>, i: nat)
    requires i < |specs| && Acceptable(projects, tasks, project, specs[..i])
    ensures Acceptable(projects, tasks, project, specs) ==> FieldsAcceptable(projects, tasks, project, specs[i])
    ensures FieldsAcceptable(projects, tasks, project, specs[i]) ==> Acceptable(projects, tasks, project, specs[..i + 1])
  {
    assert specs[..i + 1] == specs[..i] + [specs[i]];
  }

  function RawRows(specs: seq<Spec>, clock: nat -> int): (rows: seq<Task>)
    ensures |rows| == |specs|
    ensures forall i :: 0 <= i < |specs| ==> rows[i] == NewTask(specs[i], specs[i].deps, clock(i))
  {
    seq(|specs|, i requires 0 <= i < |specs| => NewTask(specs[i], specs[i].deps, clock(i)))
  }

  /** The table while a batch is being inserted: the first i rows, with unresolved references. */
  ghost function DuringBatch(t: Table, project: string, specs: seq<Spec>, clock: nat -> int, i: nat): Table
    requires i <= |specs|
  {
    var base := Last(t.last, project);
    Table(WithRows(t.tasks, BatchIds(project, base, |specs|)[..i], RawRows(specs, clock)[..i]),
          if i == 0 then t.last else t.last[project := base + i])
  }

  lemma BatchBegins(projects: set<string>, t: Table, project: string, specs: seq<Spec>, clock: nat -> int)
    ensures DuringBatch(t, project, specs, clock, 0) == t
    ensures Acceptable(projects, t.tasks, project, specs[..0])
  {
  }

  lemma BatchEnds(t: Table, project: string, specs: seq<Spec>, clock: nat -> int)
    ensures var ids := BatchIds(project, Last(t.last, project), |specs|);
            var done := DuringBatch(t, project, specs, clock, |specs|);
            && done.tasks == WithRows(t.tasks, ids, RawRows(specs, clock))
            && AfterApproval(t, project, specs, clock)
               == Table(WithRows(t.tasks, ids, BatchRows(specs, ids, clock)), done.last)
  {
    hide WithRows;
    hide TaskId;
    hide NewTask;
    hide BatchRows;
    hide RawRows;
    hide BatchIds;
    var ids, raw := BatchIds(project, Last(t.last, project), |specs|), RawRows(specs, clock);
    assert ids[..|specs|] == ids && raw[..|specs|] == raw;
  }

  /** The rows while references are replaced: the first i rows of the batch are final. */
  ghost function DuringResolution(tasks: map<string, Task>, specs: seq<Spec>, ids: seq<string>, clock: nat -> int,
                                  i: nat): map<string, Task>
    requires i <= |specs| == |ids|
  {
    WithRows(WithRows(tasks, ids, RawRows(specs, clock)), ids[..i], BatchRows(specs, ids, clock)[..i])
  }

  lemma ResolvesOneRow(tasks: map<string, Task>, specs: seq<Spec>, ids: seq<string>, clock: nat -> int, i: nat)
    requires i < |specs| == |ids| && Distinct(ids)
    ensures var now := DuringResolution(tasks, specs, ids, clock, i);
            && ids[i] in now
            && DuringResolution(tasks, specs, ids, clock, i + 1)
               == now[ids[i] := now[ids[i]].(deps := ResolvedDeps(LocalIndex(specs), ids, specs[i].deps))]
  {
    hide LocalIndex;
    hide WithRows;
    var raw := RawRows(specs, clock);
    WithRowsAt(tasks, ids, raw, i);
    WithRowsStep(WithRows(tasks, ids, raw), ids, BatchRows(specs, ids, clock), i);
    assert ids[i] !in ids[..i];
  }

  lemma ResolutionEnds(t: Table, project: string, specs: seq<Spec>, clock: nat -> int)
    requires Issued(t)
    ensures var ids, done := BatchIds(project, Last(t.last, project), |specs|), DuringBatch(t, project, specs, clock, |specs|);
            && Distinct(ids)
            && done.tasks == DuringResolution(t.tasks, specs, ids, clock, 0)
            && AfterApproval(t, project, specs, clock) == Table(DuringResolution(t.tasks, specs, ids, clock, |specs|), done.last)
  {
    hide TaskId;
    hide Issued;
    hide AfterApproval;
    hide DuringBatch;
    hide RawRows;
    hide BatchRows;
    hide BatchIds;
    var ids, raw := BatchIds(project, Last(t.last, project), |specs|), RawRows(specs, clock);
    var rows := BatchRows(specs, ids, clock);
    BatchIdsFresh(t, project, |specs|);
    BatchEnds(t, project, specs, clock);
    RowsOverwritten(t.tasks, ids, raw, rows);
    assert ids[..|specs|] == ids && rows[..|specs|] == rows;
    assert WithRows(WithRows(t.tasks, ids, raw), ids[..0], rows[..0]) == WithRows(t.tasks, ids, raw);
    hide WithRows;
  }

  lemma CountersDuringBatch(t: Table, project: string, specs: seq<Spec>, clock: nat -> int, i: nat)
    requires i < |specs|
    ensures var now, next := DuringBatch(t, project, specs, clock, i).last, DuringBatch(t, project, specs, clock, i + 1).last;
            Last(now, project) == Last(t.last, project) + i && next == now[project := Last(t.last, project) + i + 1]
  {
    hide TaskId;
    hide WithRows;
    hide RawRows;
    hide BatchIds;
  }

  lemma RowsDuringBatch(t: Table, project: string, specs: seq<Spec>, clock: nat -> int, i: nat)
    requires i < |specs|
    ensures DuringBatch(t, project, specs, clock, i + 1).tasks
            == DuringBatch(t, project, specs, clock, i).tasks[
                 TaskId(project, Last(t.last, project) + i + 1) := NewTask(specs[i], specs[i].deps, clock(i))]
  {
    hide TaskId;
    hide WithRows;
    hide NewTask;
    hide Last;
    var ids, rows := BatchIds(project, Last(t.last, project), |specs|), RawRows(specs, clock);
    WithRowsStep(t.tasks, ids, rows, i);
    assert ids[i] == TaskId(project, Last(t.last, project) + 1 + i) && rows[i] == NewTask(specs[i], specs[i].deps, clock(i));
  }

  lemma NextInsert(t: Table, project: string, specs: seq<Spec>, clock: nat -> int, i: nat)
    requires i < |specs| && specs[i].project == project
    ensures AfterInsert(DuringBatch(t, project, specs, clock, i), specs[i], clock(i))
            == DuringBatch(t, project, specs, clock, i + 1)
    ensures Last(DuringBatch(t, project, specs, clock, i).last, project) == Last(t.last, project) + i
  {
    hide DuringBatch;
    hide NewTask;
    hide TaskId;
    hide Last;
    CountersDuringBatch(t, project, specs, clock, i);
    RowsDuringBatch(t, project, specs, clock, i);
  }

  /** While the batch is written, a task's fields are rejected exactly for a reason
      that was visible before the batch began. */
  lemma BatchFieldErrors(projects: set<string>, t: Table, project: string, specs: seq<Spec>, clock: nat -> int,
                         i: nat, allowed: set<string>)
    requires Issued(t) && i < |specs| && forall k :: 0 <= k <= i ==> specs[k].project == project
    requires forall d :: d in specs[i].deps ==> d in t.tasks || d in allowed
    ensures FieldError(projects, DuringBatch(t, project, specs, clock, i).tasks, specs[i], allowed).None?
            <==> FieldsAcceptable(projects, t.tasks, project, specs[i])
  {
    hide TaskId;
    hide Issued;
    hide Blank;
    var now := DuringBatch(t, project, specs, clock, i).tasks;
    var all := BatchIds(project, Last(t.last, project), |specs|);
    var ids, rows := all[..i], RawRows(specs, clock)[..i];
    BatchIdsFresh(t, project, |specs|);
    forall d | d in now
      ensures d in t.tasks ==> now[d] == t.tasks[d]
      ensures d !in t.tasks ==> now[d].project == project
    {
      if d in ids {
        var k := IndexOf(ids, d);
        WithRowsAt(t.tasks, ids, rows, k);
      }
    }
    hide WithRows;
    assert forall d :: d in specs[i].deps ==>
      (BadDependency(now, project, allowed, d) <==> d in t.tasks && t.tasks[d].project != project);
    hide DuringBatch;
  }

  // --- what a new row holds -----------------------------------------------------------

  /** A row as it is first stored: queued, never attempted, with what the specification asks for. */
  predicate Stored(row: Task, spec: Spec, created: int) {
    && row.project == spec.project && row.status == Queued && row.attempts == 0
    && row.priority == spec.priority && row.budget == spec.budget && row.created == created
  }

  /** The lifecycle takes the row in under this id wherever the id is not in use. */
  ghost predicate Admissible(id: string, row: Task) {
    forall db: Machine.Db :: id !in db.tasks ==> Machine.Enabled(db, Machine.Add(id, row))
  }

  /** The reference names the j-th task of the batch: the last one that carries it as its id. */
  predicate NamesTask(specs: seq<Spec>, ref: string, j: nat) {
    j < |specs| && ref != "" && specs[j].id == ref && forall k :: j < k < |specs| ==> specs[k].id != ref
  }

  /** A stored reference: to a task of the batch it has become the id of its row. */
  ghost predicate Linked(specs: seq<Spec>, ids: seq<string>, ref: string, stored: string)
    requires |ids| == |specs|
  {
    && (forall j: nat :: NamesTask(specs, ref, j) ==> stored == ids[j])
    && ((forall j: nat :: !NamesTask(specs, ref, j)) ==> stored == ref)
  }

  ghost predicate AllLinked(specs: seq<Spec>, ids: seq<string>, refs: seq<string>, stored: seq<string>)
    requires |ids| == |specs|
  {
    |stored| == |refs| && forall k :: 0 <= k < |refs| ==> Linked(specs, ids, refs[k], stored[k])
  }

  /** The rows of an approved batch. */
  ghost predicate BatchStored(tasks: map<string, Task>, specs: seq<Spec>, ids: seq<string>, clock: nat -> int) {
    && |ids| == |specs|
    && forall i :: 0 <= i < |specs| ==>
         && ids[i] in tasks && Stored(tasks[ids[i]], specs[i], clock(i)) && Admissible(ids[i], tasks[ids[i]])
         && AllLinked(specs, ids, specs[i].deps, tasks[ids[i]].deps)
  }

  lemma LocalIndexNames(specs: seq<Spec>, ref: string)
    ensures ref in LocalIndex(specs) ==> NamesTask(specs, ref, LocalIndex(specs)[ref])
    ensures ref !in LocalIndex(specs) ==> forall j: nat :: !NamesTask(specs, ref, j)
    ensures forall i: nat, j: nat :: NamesTask(specs, ref, i) && NamesTask(specs, ref, j) ==> i == j
  {
  }

  lemma ResolvedIsLinked(specs: seq<Spec>, ids: seq<string>, ref: string)
    requires |ids| == |specs|
    ensures Linked(specs, ids, ref, Resolved(LocalIndex(specs), ids, ref))
  {
    LocalIndexNames(specs, ref);
    hide LocalIndex;
  }

  lemma ApprovedIsStored(t: Table, projects: set<string>, project: string, specs: seq<Spec>, clock: nat -> int)
    requires Issued(t) && Acceptable(projects, t.tasks, project, specs)
    ensures BatchStored(AfterApproval(t, project, specs, clock).tasks, specs, BatchIds(project, Last(t.last, project), |specs|), clock)
  {
    hide TaskId;
    hide Issued;
    hide LocalIndex;
    hide AfterApproval;
    hide Linked;
    var ids, t' := BatchIds(project, Last(t.last, project), |specs|), AfterApproval(t, project, specs, clock);
    forall i: nat | i < |specs|
      ensures ids[i] in t'.tasks && Stored(t'.tasks[ids[i]], specs[i], clock(i)) && Admissible(ids[i], t'.tasks[ids[i]])
      ensures AllLinked(specs, ids, specs[i].deps, t'.tasks[ids[i]].deps)
    {
      NewRowDeps(t, project, specs, clock, i);
      forall k | 0 <= k < |specs[i].deps| ensures Linked(specs, ids, specs[i].deps[k], t'.tasks[ids[i]].deps[k]) {
        ResolvedIsLinked(specs, ids, specs[i].deps[k]);
      }
    }
  }

  lemma ApprovedIds(t: Table, project: string, specs: seq<Spec>, clock: nat -> int)
    requires Issued(t)
    ensures var ids, t' := BatchIds(project, Last(t.last, project), |specs|), AfterApproval(t, project, specs, clock);
            && (forall i :: 0 <= i < |ids| ==> ids[i] == TaskId(project, Last(t.last, project) + 1 + i) && ids[i] !in t.tasks)
            && (forall u :: u in t.tasks ==> u in t'.tasks && t'.tasks[u] == t.tasks[u])
            && (forall u :: u in t'.tasks ==> u in t.tasks || u in ids)
  {
    hide TaskId;
    hide Issued;
    hide AfterApproval;
    ApprovalKeepsRows(t, project, specs, clock);
    forall i | 0 <= i < |specs| ensures BatchIds(project, Last(t.last, project), |specs|)[i] !in t.tasks {
      assert BatchIds(project, Last(t.last, project), |specs|)[i] in BatchIds(project, Last(t.last, project), |specs|);
    }
  }

  // --- which error comes first ----------------------------------------------------------

  /** The k-th dependency is the first bad one. */
  predicate FirstBad(tasks: map<string, Task>, project: string, allowed: set<string>, deps: seq<string>, k: nat) {
    && k < |deps| && (if deps[k] in tasks then tasks[deps[k]].project != project else deps[k] !in allowed)
    && forall j :: 0 <= j < k ==> if deps[j] in tasks then tasks[deps[j]].project == project else deps[j] in allowed
  }

  /** Project, title, objective, budget, and then the dependencies in their order. */
  ghost predicate FirstError(projects: set<string>, tasks: map<string, Task>, spec: Spec, allowed: set<string>, e: Option<Error>) {
    if spec.project !in projects then e == Some(UnknownProject)
    else if forall i :: 0 <= i < |spec.title| ==> IsSpace(spec.title[i]) then e == Some(BlankTitle)
    else if forall i :: 0 <= i < |spec.objective| ==> IsSpace(spec.objective[i]) then e == Some(BlankObjective)
    else if spec.budget < 1 then e == Some(BadBudget)
    else if exists k: nat :: FirstBad(tasks, spec.project, allowed, spec.deps, k) then
      exists k: nat :: FirstBad(tasks, spec.project, allowed, spec.deps, k)
                       && e == Some(if spec.deps[k] in tasks then ForeignDependency(spec.deps[k]) else UnknownDependency(spec.deps[k]))
    else e == None
  }

  lemma {:induction false} DependencyErrorIsFirst(tasks: map<string, Task>, project: string, allowed: set<string>, deps: seq<string>)
    returns (k: nat)
    ensures DependencyError(tasks, project, allowed, deps).None? ==> forall j: nat :: !FirstBad(tasks, project, allowed, deps, j)
    ensures DependencyError(tasks, project, allowed, deps).Some? ==>
              FirstBad(tasks, project, allowed, deps, k)
              && DependencyError(tasks, project, allowed, deps)
                 == Some(if deps[k] in tasks then ForeignDependency(deps[k]) else UnknownDependency(deps[k]))
    decreases |deps|
  {
    k := 0;
    if deps != [] && !BadDependency(tasks, project, allowed, deps[0]) {
      var rest := DependencyErrorIsFirst(tasks, project, allowed, deps[1..]);
      k := rest + 1;
      forall j: nat | FirstBad(tasks, project, allowed, deps, j) ensures j > 0 && FirstBad(tasks, project, allowed, deps[1..], j - 1) {
        assert forall i :: 0 <= i < j - 1 ==> deps[1..][i] == deps[i + 1];
      }
    }
  }

  lemma FieldErrorIsFirst(projects: set<string>, tasks: map<string, Task>, spec: Spec, allowed: set<string>)
    ensures FirstError(projects, tasks, spec, allowed, FieldError(projects, tasks, spec, allowed))
  {
    hide IsSpace;
    hide FirstBad;
    var k := DependencyErrorIsFirst(tasks, spec.project, allowed, spec.deps);
  }

  class State {
    var projects: set<string>
    var tasks: map<string, Task>
    var last: map<string, nat>
    var proposals: map<nat, Proposal>
    var dirty: nat

    ghost function Rows(): Table
      reads this
    {
      Table(tasks, last)
    }

    constructor (projects: set<string>)
      ensures this.projects == projects && tasks == map[] && last == map[] && proposals == map[] && dirty == 0
      ensures Sound(Rows())
    {
      this.projects := projects;
      tasks, last, proposals, dirty := map[], map[], map[], 0;
      new;
      var rank: string -> nat := _ => 0;
      RankedIsAcyclic(DependsOn(tasks), rank);
    }

    /** Numbers are handed out once per project and never again. */
    method NextTaskId(project: string) returns (id: string)
      modifies this`last
      ensures last == old(last)[project := Last(old(last), project) + 1]
      ensures id == TaskId(project, last[project])
      ensures Issued(old(Rows())) ==> id !in tasks
    {
      last := last[project := Last(last, project) + 1];
      id := TaskId(project, last[project]);
      if Issued(old(Rows())) { NextIdIsFresh(old(Rows()), project, last[project]); }
    }

    method ValidateTaskFields(spec: Spec, allowed: set<string>) returns (e: Option<Error>)
      ensures e == FieldError(projects, tasks, spec, allowed) && FirstError(projects, tasks, spec, allowed, e)
    {
      FieldErrorIsFirst(projects, tasks, spec, allowed);
      hide FirstError;
      if spec.project !in projects { return Some(UnknownProject); }
      if Blank(spec.title) { return Some(BlankTitle); }
      if Blank(spec.objective) { return Some(BlankObjective); }
      if spec.budget < 1 { return Some(BadBudget); }
      var deps := spec.deps;
      for k := 0 to |deps|
        invariant DependencyError(tasks, spec.project, allowed, deps) == DependencyError(tasks, spec.project, allowed, deps[k..])
      {
        var dep := deps[k];
        assert deps[k..][1..] == deps[k + 1..];
        if dep !in tasks {
          if dep !in allowed { return Some(UnknownDependency(dep)); }
        } else if tasks[dep].project != spec.project {
          return Some(ForeignDependency(dep));
        }
      }
      e := None;
    }

    /** Validation comes before any write, so a rejected task costs no number. */
    method InsertTask(spec: Spec, created: int, allowed: set<string>) returns (r: Result<string, Error>)
      modifies this`tasks, this`last
      ensures r.Err? <==> FieldError(projects, old(tasks), spec, allowed).Some?
      ensures r.Err? ==> Rows() == old(Rows()) && Some(r.error) == FieldError(projects, old(tasks), spec, allowed)
      ensures r.Ok? ==> Rows() == AfterInsert(old(Rows()), spec, created)
                        && r.value == TaskId(spec.project, Last(old(last), spec.project) + 1)
    {
      var e := ValidateTaskFields(spec, allowed);
      if e.Some? { return Err(e.value); }
      var id := NextTaskId(spec.project);
      tasks := tasks[id := NewTask(spec, spec.deps, created)];
      r := Ok(id);
    }

    /** A file import or an owner's task: dependencies must already exist. After forced approvals that is not
        enough, for one of them may lead to the id that the new row gets. */
    method AddTask(spec: Spec, created: int) returns (r: Result<string, Error>)
      requires Issued(Rows())
      modifies this`tasks, this`last
      ensures Issued(Rows())
      ensures r.Err? ==> Rows() == old(Rows())
      ensures r.Ok? ==> Rows() == AfterInsert(old(Rows()), spec, created) && r.value !in old(tasks)
      ensures r.Ok? ==> r.value == TaskId(spec.project, Last(old(last), spec.project) + 1)
                        && last == old(last)[spec.project := Last(old(last), spec.project) + 1]
      ensures r.Ok? ==> r.value in tasks && tasks == old(tasks)[r.value := tasks[r.value]]
                        && Stored(tasks[r.value], spec, created) && tasks[r.value].deps == spec.deps
                        && Admissible(r.value, tasks[r.value])
      ensures r.Err? ==> FirstError(projects, old(tasks), spec, {}, Some(r.error))
      ensures r.Ok? <==> Acceptable(projects, old(tasks), spec.project, [spec])
                         && forall d :: d in spec.deps ==> d in old(tasks)
      ensures Sound(old(Rows())) ==> Sound(Rows())
      ensures Anchored(old(Rows())) ==> Anchored(Rows())
      ensures Loose(old(Rows())) && r.Ok? ==> (Loose(Rows()) <==> !ClosesOnInsert(old(Rows()), spec))
    {
      hide TaskId;
      hide Sound;
      hide Issued;
      hide Acyclic;
      hide Unissued;
      hide ClosesOnInsert;
      hide AfterInsert;
      r := InsertTask(spec, created, {});
      assert [spec][0] == spec;
      FieldErrorIsFirst(projects, old(tasks), spec, {});
      hide FirstError;
      if r.Ok? {
        assert forall d :: d in spec.deps ==> !BadDependency(old(tasks), spec.project, {}, d);
        hide Acceptable;
        InsertOutcome(old(Rows()), spec, created);
        InsertedRow(old(Rows()), spec, created);
      } else if Acceptable(projects, old(tasks), spec.project, [spec]) {
        assert exists d :: d in spec.deps && BadDependency(old(tasks), spec.project, {}, d);
      }
    }

    method ProposalFindings(specs: seq<Spec>) returns (findings: seq<Finding>)
      ensures findings == [] <==> Clean(specs, tasks.Keys)
    {
      findings := CheckProposal(specs, tasks.Keys);
    }

    /** The whole batch or nothing. Rejected proposals may at most have their findings refreshed. */
    method ApproveProposal(id: nat, force: bool, clock: nat -> int) returns (r: Result<seq<string>, Error>)
      requires Issued(Rows())
      modifies this
      ensures Issued(Rows())
      ensures projects == old(projects)
      ensures r.Ok? <==> && id in old(proposals) && old(proposals)[id].status == Pending
                         && (force || Clean(old(proposals)[id].specs, old(tasks).Keys))
                         && Acceptable(projects, old(tasks), old(proposals)[id].project, old(proposals)[id].specs)
      ensures r.Err? ==> Rows() == old(Rows()) && dirty == old(dirty)
      ensures r == Err(UnknownProposal) <== id !in old(proposals)
      ensures r == Err(NotPending) <== id in old(proposals) && old(proposals)[id].status != Pending
      ensures r == Err(HasFindings) <==> id in old(proposals) && old(proposals)[id].status == Pending && !force
                                         && !Clean(old(proposals)[id].specs, old(tasks).Keys)
      ensures r.Err? && r.error != HasFindings ==> proposals == old(proposals)
      ensures r.Err? && r.error == HasFindings ==>
                && !force && id in old(proposals) && id in proposals
                && proposals == old(proposals)[id := old(proposals)[id].(findings := proposals[id].findings)]
      ensures r.Ok? ==> var p := old(proposals)[id];
                && Rows() == AfterApproval(old(Rows()), p.project, p.specs, clock)
                && r.value == BatchIds(p.project, Last(old(last), p.project), |p.specs|)
                && id in proposals
                && proposals == old(proposals)[id := Proposal(p.project, p.specs, Approved, proposals[id].findings)]
                && (proposals[id].findings == [] <==> Clean(p.specs, old(tasks).Keys))
                && dirty == old(dirty) + 1
      ensures r.Ok? ==> var p := old(proposals)[id];
                && BatchStored(tasks, p.specs, r.value, clock)
                && (forall i :: 0 <= i < |r.value| ==>
                      r.value[i] == TaskId(p.project, Last(old(last), p.project) + 1 + i) && r.value[i] !in old(tasks))
                && (forall u :: u in old(tasks) ==> u in tasks && tasks[u] == old(tasks)[u])
                && (forall u :: u in tasks ==> u in old(tasks) || u in r.value)
      ensures Sound(old(Rows())) && !force ==> Sound(Rows())
      ensures Anchored(old(Rows())) && !force ==> Anchored(Rows())
      ensures r.Ok? ==> var p := old(proposals)[id];
                && (Loose(old(Rows())) ==> (Loose(Rows()) <==> Acyclic(PredictedGraph(old(Rows()), p.project, p.specs))))
                && (Anchored(old(Rows())) ==>
                      (Anchored(Rows()) <==> Foreseen(old(Rows()), Approve(p.project, p.specs, clock))))
    {
      hide TaskId;
      hide Acyclic;
      hide WithRows;
      hide Clean;
      hide AfterApproval;
      hide Acceptable;
      hide BatchIds;
      hide Sound;
      hide Issued;
      hide Anchored;
      hide Foreseen;
      hide PredictedGraph;
      hide BatchStored;
      hide AllowedReferences;
      if id !in proposals { return Err(UnknownProposal); }
      var p := proposals[id];
      if p.status != Pending { return Err(NotPending); }
      var saved := proposals;
      var findings := ProposalFindings(p.specs);
      proposals := proposals[id := p.(findings := findings)];
      if findings != [] && !force { return Err(HasFindings); }
      var allowed := AllowedReferences(p.specs, force);
      ReferencesAllowed(p.specs, tasks.Keys, force);
      var written := WriteBatch(p, allowed, clock);
      if written.Err? {
        proposals := saved;
        return Err(written.error);
      }
      proposals := proposals[id := proposals[id].(status := Approved)];
      dirty := dirty + 1;
      r := written;
      ApprovalOutcome(old(Rows()), projects, p.project, p.specs, clock);
      ApprovedIsStored(old(Rows()), projects, p.project, p.specs, clock);
      ApprovedIds(old(Rows()), p.project, p.specs, clock);
    }

    /** The two passes of an approval: rows with raw references, then references resolved. */
    method WriteBatch(p: Proposal, allowed: set<string>, clock: nat -> int) returns (r: Result<seq<string>, Error>)
      requires Issued(Rows())
      requires ReferencesIn(p.specs, tasks.Keys, allowed)
      modifies this`tasks, this`last
      ensures r.Ok? <==> Acceptable(projects, old(tasks), p.project, p.specs)
      ensures r.Err? ==> Rows() == old(Rows()) && r.error != HasFindings
      ensures r.Ok? ==> Rows() == AfterApproval(old(Rows()), p.project, p.specs, clock)
                        && r.value == BatchIds(p.project, Last(old(last), p.project), |p.specs|)
    {
      hide TaskId;
      hide Acyclic;
      hide WithRows;
      hide DuringBatch;
      hide Acceptable;
      hide AfterInsert;
      hide Issued;
      var savedTasks, savedLast := tasks, last;
      ghost var t := Rows();
      var ids: seq<string> := [];
      BatchBegins(projects, t, p.project, p.specs, clock);
      for i := 0 to |p.specs|
        invariant |ids| == i
        invariant forall k :: 0 <= k < i ==> ids[k] == TaskId(p.project, Last(t.last, p.project) + 1 + k)
        invariant Rows() == DuringBatch(t, p.project, p.specs, clock, i)
        invariant Acceptable(projects, t.tasks, p.project, p.specs[..i])
        invariant forall k :: 0 <= k < i ==> p.specs[k].project == p.project
      {
        AcceptableGrows(projects, t.tasks, p.project, p.specs, i);
        var spec := p.specs[i];
        if spec.project != p.project {
          tasks, last := savedTasks, savedLast;
          return Err(OtherProject);
        }
        BatchFieldErrors(projects, t, p.project, p.specs, clock, i, allowed);
        var one := InsertTask(spec, clock(i), allowed);
        if one.Err? {
          tasks, last := savedTasks, savedLast;
          return Err(one.error);
        }
        NextInsert(t, p.project, p.specs, clock, i);
        ids := ids + [one.value];
      }
      assert p.specs[..|p.specs|] == p.specs;
      ResolveReferences(p.specs, ids, t, p.project, clock);
      r := Ok(ids);
    }

    method ResolveReferences(specs: seq<Spec>, ids: seq<string>, ghost t: Table, ghost project: string, ghost clock: nat -> int)
      requires Issued(t) && ids == BatchIds(project, Last(t.last, project), |specs|)
      requires Rows() == DuringBatch(t, project, specs, clock, |specs|)
      modifies this`tasks
      ensures Rows() == AfterApproval(t, project, specs, clock)
    {
      hide TaskId;
      hide Issued;
      hide DuringBatch;
      hide AfterApproval;
      hide LocalIndex;
      hide BatchIds;
      hide DuringResolution;
      ResolutionEnds(t, project, specs, clock);
      var local := LocalIndex(specs);
      for i := 0 to |specs|
        invariant tasks == DuringResolution(t.tasks, specs, ids, clock, i)
      {
        ResolvesOneRow(t.tasks, specs, ids, clock, i);
        tasks := tasks[ids[i] := tasks[ids[i]].(deps := ResolvedDeps(local, ids, specs[i].deps))];
      }
    }
  }

  lemma InsertedRow(t: Table, spec: Spec, created: int)
    requires spec.budget >= 1
    ensures var t', id := AfterInsert(t, spec, created), NextId(t, spec.project);
            && id in t'.tasks && t'.tasks == t.tasks[id := t'.tasks[id]] && Stored(t'.tasks[id], spec, created)
            && t'.tasks[id].deps == spec.deps && Admissible(id, t'.tasks[id])
            && t'.last == t.last[spec.project := Last(t.last, spec.project) + 1]
  {
    hide TaskId;
  }

  /** What an insert whose dependencies exist does to the graph. */
  lemma InsertOutcome(t: Table, spec: Spec, created: int)
    requires Issued(t) && forall d :: d in spec.deps ==> d in t.tasks && t.tasks[d].project == spec.project
    ensures var t' := AfterInsert(t, spec, created);
            && Issued(t') && NextId(t, spec.project) !in t.tasks
            && (Sound(t) ==> Sound(t'))
            && (Anchored(t) ==> Anchored(t'))
            && (Loose(t) ==> (Loose(t') <==> !ClosesOnInsert(t, spec)))
  {
    hide TaskId;
    hide Sound;
    hide Anchored;
    hide Issued;
    hide Acyclic;
    hide ClosesOnInsert;
    hide AfterInsert;
    InsertStaysIssued(t, spec, created);
    if Sound(t) { InsertStaysSound(t, spec, created); }
    if Anchored(t) { InsertStaysAnchored(t, spec, created); }
    if Loose(t) { InsertAcyclicIff(t, spec, created); }
  }

  /** What the approval of an acceptable batch does to the graph. */
  lemma ApprovalOutcome(t: Table, projects: set<string>, project: string, specs: seq<Spec>, clock: nat -> int)
    requires Issued(t) && Acceptable(projects, t.tasks, project, specs)
    ensures var t' := AfterApproval(t, project, specs, clock);
            && Issued(t')
            && (Sound(t) && Clean(specs, t.tasks.Keys) ==> Sound(t'))
            && (Anchored(t) && Clean(specs, t.tasks.Keys) ==> Anchored(t'))
            && (Loose(t) ==> (Loose(t') <==> Acyclic(PredictedGraph(t, project, specs))))
            && (Anchored(t) ==> (Anchored(t') <==> Foreseen(t, Approve(project, specs, clock))))
  {
    hide TaskId;
    hide AfterApproval;
    hide Sound;
    hide Anchored;
    hide Issued;
    hide Acyclic;
    hide PredictedGraph;
    hide Foreseen;
    hide Homely;
    ApprovalStaysIssued(t, project, specs, clock);
    if Loose(t) { ApprovalAcyclicIff(t, project, specs, clock); }
    if Anchored(t) { ApprovalAnchoredIff(t, project, specs, clock); }
    if Clean(specs, t.tasks.Keys) {
      if Sound(t) { ApprovalStaysSound(t, project, specs, clock); }
      if Anchored(t) { CleanIsForeseen(t, project, specs, clock); }
    }
  }

  /** References a batch may leave unresolved while its rows are inserted. */
  function AllowedReferences(specs: seq<Spec>, force: bool): set<string> {
    (set s | s in specs && s.id != "" :: s.id) + if force then set s, d | s in specs && d in s.deps :: d else {}
  }

  predicate ReferencesIn(specs: seq<Spec>, existing: set<string>, allowed: set<string>) {
    forall s :: s in specs ==> forall d :: d in s.deps ==> d in existing || d in allowed
  }

  lemma ReferencesAllowed(specs: seq<Spec>, existing: set<string>, force: bool)
    requires force || Clean(specs, existing)
    ensures ReferencesIn(specs, existing, AllowedReferences(specs, force))
  {
    forall s, d | s in specs && d in s.deps ensures d in existing || d in AllowedReferences(specs, force) {
      if !force {
        var i: nat :| i < |specs| && specs[i] == s;
        assert !Unresolved(specs, existing, i, d);
        if d in LocalIndex(specs) { assert specs[LocalIndex(specs)[d]] in specs; }
      }
    }
  }
}

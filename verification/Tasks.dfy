/** The task table as data: rows, their dependency graph, readiness, and the two ways rows are added. */
module Tasks {
  import opened Digraph
  import opened Proposals
  import opened TaskIds
  import opened Texts
  import opened Wrappers

  datatype Status = Queued | InProgress | InReview | Blocked | Done | Cancelled | Failed

  datatype Task = Task(project: string, deps: seq<string>, status: Status, priority: int,
                       created: int, attempts: nat, budget: int)

  /** Task rows and, per project, the last number handed out. */
  datatype Table = Table(tasks: map<string, Task>, last: map<string, nat>)

  function Last(last: map<string, nat>, project: string): nat {
    if project in last then last[project] else 0
  }

  function DependsOn(tasks: map<string, Task>): Graph<string> {
    map id | id in tasks :: tasks[id].deps
  }

  ghost predicate Allocated(t: Table, id: string)
    requires id in t.tasks
  {
    exists n :: 1 <= n <= Last(t.last, t.tasks[id].project) && id == TaskId(t.tasks[id].project, n)
  }

  /** Every row carries a number its project has handed out. */
  ghost predicate Issued(t: Table) {
    forall id {:trigger Allocated(t, id)} :: id in t.tasks ==> Allocated(t, id)
  }

  /** Besides, rows depend on rows of their own project only and the dependency graph has no cycle. */
  ghost predicate Sound(t: Table) {
    && Issued(t)
    && (forall id, d :: Edge(DependsOn(t.tasks), id, d) ==> d in t.tasks && t.tasks[d].project == t.tasks[id].project)
    && Acyclic(DependsOn(t.tasks))
  }

  lemma NextIdIsFresh(t: Table, project: string, n: nat)
    requires Issued(t) && n > Last(t.last, project)
    ensures TaskId(project, n) !in t.tasks
  {
    var id := TaskId(project, n);
    if id in t.tasks {
      assert Allocated(t, id);
      var k :| 1 <= k <= Last(t.last, t.tasks[id].project) && id == TaskId(t.tasks[id].project, k);
      TaskIdInjective(project, n, t.tasks[id].project, k);
    }
  }

  // --- validation ---------------------------------------------------------------

  datatype Error =
    | UnknownProject
    | BlankTitle
    | BlankObjective
    | BadBudget
    | UnknownDependency(dep: string)
    | ForeignDependency(dep: string)
    | UnknownProposal
    | NotPending
    | HasFindings
    | OtherProject

  predicate BadDependency(tasks: map<string, Task>, project: string, allowed: set<string>, dep: string) {
    if dep in tasks then tasks[dep].project != project else dep !in allowed
  }

  function DependencyError(tasks: map<string, Task>, project: string, allowed: set<string>, deps: seq<string>): (e: Option<Error>)
    ensures e.None? <==> forall d :: d in deps ==> !BadDependency(tasks, project, allowed, d)
    ensures e.Some? ==> e.value.UnknownDependency? || e.value.ForeignDependency?
  {
    if deps == [] then None
    else if BadDependency(tasks, project, allowed, deps[0]) then
      Some(if deps[0] in tasks then ForeignDependency(deps[0]) else UnknownDependency(deps[0]))
    else DependencyError(tasks, project, allowed, deps[1..])
  }

  function FieldError(projects: set<string>, tasks: map<string, Task>, spec: Spec, allowed: set<string>): (e: Option<Error>)
    ensures e != Some(HasFindings)
  {
    if spec.project !in projects then Some(UnknownProject)
    else if Blank(spec.title) then Some(BlankTitle)
    else if Blank(spec.objective) then Some(BlankObjective)
    else if spec.budget < 1 then Some(BadBudget)
    else DependencyError(tasks, spec.project, allowed, spec.deps)
  }

  function NewTask(spec: Spec, deps: seq<string>, created: int): Task {
    Task(spec.project, deps, Queued, spec.priority, created, 0, spec.budget)
  }

  // --- inserting a batch of rows ------------------------------------------------

  function WithRows(tasks: map<string, Task>, ids: seq<string>, rows: seq<Task>): (r: map<string, Task>)
    requires |ids| == |rows|
    ensures forall id :: id in r <==> id in tasks || id in ids
    ensures forall id :: id in tasks && id !in ids ==> r[id] == tasks[id]
  {
    if ids == [] then tasks
    else
      var n := |ids| - 1;
      assert ids == ids[..n] + [ids[n]];
      WithRows(tasks, ids[..n], rows[..n])[ids[n] := rows[n]]
  }

  lemma WithRowsStep(tasks: map<string, Task>, ids: seq<string>, rows: seq<Task>, i: nat)
    requires i < |ids| == |rows|
    ensures WithRows(tasks, ids[..i + 1], rows[..i + 1]) == WithRows(tasks, ids[..i], rows[..i])[ids[i] := rows[i]]
  {
    assert ids[..i + 1][..i] == ids[..i] && rows[..i + 1][..i] == rows[..i];
  }

  lemma {:induction false} WithRowsAt(tasks: map<string, Task>, ids: seq<string>, rows: seq<Task>, i: nat)
    requires |ids| == |rows| && Distinct(ids) && i < |ids|
    ensures WithRows(tasks, ids, rows)[ids[i]] == rows[i]
    decreases |ids|
  {
    var n := |ids| - 1;
    if i < n {
      WithRowsAt(tasks, ids[..n], rows[..n], i);
      assert ids[..n][i] == ids[i] && rows[..n][i] == rows[i];
    }
  }

  /** Overwriting all rows of a batch leaves no trace of the rows first inserted. */
  lemma RowsOverwritten(tasks: map<string, Task>, ids: seq<string>, rows: seq<Task>, rows': seq<Task>)
    requires |ids| == |rows| == |rows'| && Distinct(ids)
    ensures WithRows(WithRows(tasks, ids, rows), ids, rows') == WithRows(tasks, ids, rows')
  {
    var a, b := WithRows(WithRows(tasks, ids, rows), ids, rows'), WithRows(tasks, ids, rows');
    forall id | id in b ensures a[id] == b[id] {
      if id in ids {
        var i :| 0 <= i < |ids| && ids[i] == id;
        WithRowsAt(WithRows(tasks, ids, rows), ids, rows', i);
        WithRowsAt(tasks, ids, rows', i);
      }
    }
    assert a.Keys == b.Keys;
  }

  function BatchIds(project: string, base: nat, n: nat): (ids: seq<string>)
    ensures |ids| == n && forall i :: 0 <= i < n ==> ids[i] == TaskId(project, base + 1 + i)
  {
    seq(n, i requires 0 <= i < n => TaskId(project, base + 1 + i))
  }

  lemma BatchIdsFresh(t: Table, project: string, n: nat)
    requires Issued(t)
    ensures var ids := BatchIds(project, Last(t.last, project), n);
            Distinct(ids) && forall i :: 0 <= i < n ==> ids[i] !in t.tasks
  {
    hide TaskId;
    var base := Last(t.last, project);
    var ids := BatchIds(project, base, n);
    forall i, j | 0 <= i < j < n ensures ids[i] != ids[j] {
      if ids[i] == ids[j] { TaskIdInjective(project, base + 1 + i, project, base + 1 + j); }
    }
    forall i | 0 <= i < n ensures ids[i] !in t.tasks { NextIdIsFresh(t, project, base + 1 + i); }
  }

  /** A dependency as stored: local ids become the ids of the rows they name. */
  function Resolved(local: map<string, nat>, ids: seq<string>, dep: string): string {
    if dep in local && local[dep] < |ids| then ids[local[dep]] else dep
  }

  function ResolvedDeps(local: map<string, nat>, ids: seq<string>, deps: seq<string>): (r: seq<string>)
    ensures |r| == |deps| && forall k :: 0 <= k < |deps| ==> r[k] == Resolved(local, ids, deps[k])
  {
    seq(|deps|, k requires 0 <= k < |deps| => Resolved(local, ids, deps[k]))
  }

  function BatchRows(specs: seq<Spec>, ids: seq<string>, clock: nat -> int): (rows: seq<Task>)
    ensures |rows| == |specs|
    ensures forall i :: 0 <= i < |specs| ==>
              rows[i] == NewTask(specs[i], ResolvedDeps(LocalIndex(specs), ids, specs[i].deps), clock(i))
  {
    seq(|specs|, i requires 0 <= i < |specs| =>
      NewTask(specs[i], ResolvedDeps(LocalIndex(specs), ids, specs[i].deps), clock(i)))
  }

  /** The table after a proposal of the given project has been approved. */
  function AfterApproval(t: Table, project: string, specs: seq<Spec>, clock: nat -> int): Table {
    var base := Last(t.last, project);
    var ids := BatchIds(project, base, |specs|);
    Table(WithRows(t.tasks, ids, BatchRows(specs, ids, clock)),
          if specs == [] then t.last else t.last[project := base + |specs|])
  }

  /** The table after a single task has been added. */
  function AfterInsert(t: Table, spec: Spec, created: int): Table {
    var n := Last(t.last, spec.project) + 1;
    Table(t.tasks[TaskId(spec.project, n) := NewTask(spec, spec.deps, created)], t.last[spec.project := n])
  }

  /** The graph part of a clean proposal: the part that approval relies on. */
  ghost predicate GraphClean(specs: seq<Spec>, existing: set<string>) {
    && (forall ref {:trigger SharedId(specs, existing, ref)} :: !SharedId(specs, existing, ref))
    && (forall i: nat, dep {:trigger Unresolved(specs, existing, i, dep)} ::
          i < |specs| ==> !Unresolved(specs, existing, i, dep))
    && Acyclic(LocalGraph(specs))
  }

  /** Each reference to a row names a row of the proposal's own project. */
  predicate Homely(tasks: map<string, Task>, project: string, specs: seq<Spec>) {
    forall i :: 0 <= i < |specs| ==>
      && specs[i].project == project
      && forall d :: d in specs[i].deps && d in tasks ==> tasks[d].project == project
  }

  // --- approval embeds the proposal's graph in the table ---------------------------

  lemma NewRowDeps(t: Table, project: string, specs: seq<Spec>, clock: nat -> int, i: nat)
    requires Issued(t) && i < |specs|
    ensures var t' := AfterApproval(t, project, specs, clock);
            var ids := BatchIds(project, Last(t.last, project), |specs|);
            && ids[i] in t'.tasks
            && t'.tasks[ids[i]] == NewTask(specs[i], ResolvedDeps(LocalIndex(specs), ids, specs[i].deps), clock(i))
  {
    var ids := BatchIds(project, Last(t.last, project), |specs|);
    BatchIdsFresh(t, project, |specs|);
    WithRowsAt(t.tasks, ids, BatchRows(specs, ids, clock), i);
  }

  /** Some dependency of task i is stored as id. */
  predicate StoredAs(specs: seq<Spec>, ids: seq<string>, i: nat, id: string)
    requires i < |specs|
  {
    exists d :: d in specs[i].deps && Resolved(LocalIndex(specs), ids, d) == id
  }

  lemma RowEdges(t: Table, project: string, specs: seq<Spec>, clock: nat -> int, i: nat, id: string)
    requires Issued(t) && i < |specs|
    ensures var ids := BatchIds(project, Last(t.last, project), |specs|);
            Edge(DependsOn(AfterApproval(t, project, specs, clock).tasks), ids[i], id) <==> StoredAs(specs, ids, i, id)
  {
    hide TaskId;
    hide WithRows;
    var ids := BatchIds(project, Last(t.last, project), |specs|);
    NewRowDeps(t, project, specs, clock, i);
    var r := ResolvedDeps(LocalIndex(specs), ids, specs[i].deps);
    if d :| d in specs[i].deps && Resolved(LocalIndex(specs), ids, d) == id {
      var k :| 0 <= k < |specs[i].deps| && specs[i].deps[k] == d;
      assert r[k] == id;
    }
  }

  lemma InsideEdges(specs: seq<Spec>, existing: set<string>, ids: seq<string>, i: nat, j: nat)
    requires GraphClean(specs, existing) && Distinct(ids) && |ids| == |specs| && i < |specs| && j < |specs|
    requires forall k :: 0 <= k < |ids| ==> ids[k] !in existing
    ensures StoredAs(specs, ids, i, ids[j]) <==> Edge(LocalGraph(specs), i, j)
  {
    var local := LocalIndex(specs);
    if d :| d in specs[i].deps && Resolved(local, ids, d) == ids[j] {
      assert !Unresolved(specs, existing, i, d);
      assert d in local && local[d] == j;
    }
    if d :| d in specs[i].deps && d in local && local[d] == j {
      assert Resolved(local, ids, d) == ids[j];
    }
  }

  lemma OutsideEdges(specs: seq<Spec>, existing: set<string>, ids: seq<string>, i: nat, id: string)
    requires GraphClean(specs, existing) && |ids| == |specs| && i < |specs| && id !in ids
    ensures StoredAs(specs, ids, i, id) <==> id in specs[i].deps && id in existing
  {
    var local := LocalIndex(specs);
    if d :| d in specs[i].deps && Resolved(local, ids, d) == id {
      assert !Unresolved(specs, existing, i, d);
    }
    if id in specs[i].deps && id in existing {
      if id in local { assert SharedId(specs, existing, id); }
      assert Resolved(local, ids, id) == id;
    }
  }

  lemma ApprovalKeepsRows(t: Table, project: string, specs: seq<Spec>, clock: nat -> int)
    requires Issued(t)
    ensures var t' := AfterApproval(t, project, specs, clock);
            var ids := BatchIds(project, Last(t.last, project), |specs|);
            && Distinct(ids)
            && (forall id :: id in t'.tasks <==> id in t.tasks || id in ids)
            && (forall id :: id in t.tasks ==> id !in ids && t'.tasks[id] == t.tasks[id])
  {
    hide TaskId;
    hide WithRows;
    hide Issued;
    hide BatchRows;
    BatchIdsFresh(t, project, |specs|);
  }

  /** Rows i and j of the batch are connected exactly when tasks i and j of the proposal are,
      forward references included; references to existing rows are kept as they are;
      and no row outside the batch changes. */
  lemma ApprovalIsIsomorphic(t: Table, project: string, specs: seq<Spec>, clock: nat -> int)
    requires Issued(t)
    requires GraphClean(specs, t.tasks.Keys)
    ensures var t' := AfterApproval(t, project, specs, clock);
            var ids := BatchIds(project, Last(t.last, project), |specs|);
            && Distinct(ids)
            && (forall id :: id in t'.tasks <==> id in t.tasks || id in ids)
            && (forall id :: id in t.tasks ==> id !in ids && t'.tasks[id] == t.tasks[id])
            && (forall i: nat, j: nat :: i < |specs| && j < |specs| ==>
                  (Edge(DependsOn(t'.tasks), ids[i], ids[j]) <==> Edge(LocalGraph(specs), i, j)))
            && (forall i: nat, id :: i < |specs| && id !in ids ==>
                  (Edge(DependsOn(t'.tasks), ids[i], id) <==> id in specs[i].deps && id in t.tasks))
  {
    hide TaskId;
    hide Issued;
    hide GraphClean;
    hide AfterApproval;
    hide StoredAs;
    hide Edge;
    var t' := AfterApproval(t, project, specs, clock);
    var ids := BatchIds(project, Last(t.last, project), |specs|);
    BatchIdsFresh(t, project, |specs|);
    ApprovalKeepsRows(t, project, specs, clock);
    forall i: nat, j: nat | i < |specs| && j < |specs|
      ensures Edge(DependsOn(t'.tasks), ids[i], ids[j]) <==> Edge(LocalGraph(specs), i, j)
    {
      RowEdges(t, project, specs, clock, i, ids[j]);
      InsideEdges(specs, t.tasks.Keys, ids, i, j);
    }
    forall i: nat, id | i < |specs| && id !in ids
      ensures Edge(DependsOn(t'.tasks), ids[i], id) <==> id in specs[i].deps && id in t.tasks
    {
      RowEdges(t, project, specs, clock, i, id);
      OutsideEdges(specs, t.tasks.Keys, ids, i, id);
    }
  }

  lemma ApprovalExtends(t: Table, project: string, specs: seq<Spec>, clock: nat -> int)
    requires Sound(t) && GraphClean(specs, t.tasks.Keys)
    ensures Extends(DependsOn(t.tasks), DependsOn(AfterApproval(t, project, specs, clock).tasks), LocalGraph(specs),
                    BatchIds(project, Last(t.last, project), |specs|), t.tasks.Keys)
  {
    hide TaskId;
    hide AfterApproval;
    hide Acyclic;
    hide GraphClean;
    hide LocalGraph;
    hide Issued;
    var t' := AfterApproval(t, project, specs, clock);
    var g, g' := DependsOn(t.tasks), DependsOn(t'.tasks);
    var ids := BatchIds(project, Last(t.last, project), |specs|);
    ApprovalIsIsomorphic(t, project, specs, clock);
    forall u, v | Edge(g', u, v) && u !in ids ensures Edge(g, u, v) && v !in ids {
      assert Edge(g, u, v);
    }
    hide DependsOn;
    forall u, v | Edge(g', u, v) && u in ids && v !in ids ensures v in t.tasks {
      assert ids[IndexOf(ids, u)] == u;
    }
  }

  lemma ApprovalStaysAcyclic(t: Table, project: string, specs: seq<Spec>, clock: nat -> int)
    requires Sound(t) && GraphClean(specs, t.tasks.Keys)
    ensures Acyclic(DependsOn(AfterApproval(t, project, specs, clock).tasks))
  {
    hide TaskId;
    hide AfterApproval;
    hide Acyclic;
    hide Extends;
    hide LocalGraph;
    ApprovalExtends(t, project, specs, clock);
    BatchIdsFresh(t, project, |specs|);
    ExtensionIsAcyclic(DependsOn(t.tasks), DependsOn(AfterApproval(t, project, specs, clock).tasks), LocalGraph(specs),
                       BatchIds(project, Last(t.last, project), |specs|), t.tasks.Keys);
  }

  lemma ApprovalStaysIssued(t: Table, project: string, specs: seq<Spec>, clock: nat -> int)
    requires Issued(t) && Homely(t.tasks, project, specs)
    ensures Issued(AfterApproval(t, project, specs, clock))
  {
    hide TaskId;
    hide WithRows;
    hide BatchRows;
    var t' := AfterApproval(t, project, specs, clock);
    var ids := BatchIds(project, Last(t.last, project), |specs|);
    ApprovalKeepsRows(t, project, specs, clock);
    forall id | id in t'.tasks ensures Allocated(t', id) {
      if id in ids {
        NewRowDeps(t, project, specs, clock, IndexOf(ids, id));
      } else {
        assert Allocated(t, id);
        var n :| 1 <= n <= Last(t.last, t.tasks[id].project) && id == TaskId(t.tasks[id].project, n);
      }
    }
  }

  lemma ApprovalCloses(t: Table, project: string, specs: seq<Spec>, clock: nat -> int, id: string, d: string)
    requires Sound(t) && GraphClean(specs, t.tasks.Keys) && Homely(t.tasks, project, specs)
    requires Edge(DependsOn(AfterApproval(t, project, specs, clock).tasks), id, d)
    ensures var t' := AfterApproval(t, project, specs, clock);
            d in t'.tasks && t'.tasks[d].project == t'.tasks[id].project
  {
    hide TaskId;
    hide WithRows;
    hide Acyclic;
    var t' := AfterApproval(t, project, specs, clock);
    var ids := BatchIds(project, Last(t.last, project), |specs|);
    ApprovalIsIsomorphic(t, project, specs, clock);
    if id in ids {
      var i := IndexOf(ids, id);
      NewRowDeps(t, project, specs, clock, i);
      if d in ids {
        NewRowDeps(t, project, specs, clock, IndexOf(ids, d));
      } else {
        assert d in specs[i].deps && d in t.tasks;
      }
    } else {
      assert Edge(DependsOn(t.tasks), id, d);
    }
  }

  /** Approval of a clean proposal keeps the table sound. */
  lemma ApprovalStaysSound(t: Table, project: string, specs: seq<Spec>, clock: nat -> int)
    requires Sound(t) && GraphClean(specs, t.tasks.Keys) && Homely(t.tasks, project, specs)
    ensures Sound(AfterApproval(t, project, specs, clock))
  {
    hide AfterApproval;
    hide GraphClean;
    hide Homely;
    hide Acyclic;
    hide Issued;
    var t' := AfterApproval(t, project, specs, clock);
    ApprovalStaysAcyclic(t, project, specs, clock);
    ApprovalStaysIssued(t, project, specs, clock);
    forall id, d | Edge(DependsOn(t'.tasks), id, d)
      ensures d in t'.tasks && t'.tasks[d].project == t'.tasks[id].project
    {
      ApprovalCloses(t, project, specs, clock, id, d);
    }
  }

  lemma InsertStaysAcyclic(t: Table, spec: Spec, created: int)
    requires Sound(t) && (forall d :: d in spec.deps ==> d in t.tasks)
    ensures Acyclic(DependsOn(AfterInsert(t, spec, created).tasks))
    ensures TaskId(spec.project, Last(t.last, spec.project) + 1) !in t.tasks
  {
    hide TaskId;
    hide Acyclic;
    var id := TaskId(spec.project, Last(t.last, spec.project) + 1);
    NextIdIsFresh(t, spec.project, Last(t.last, spec.project) + 1);
    hide Issued;
    var g, g' := DependsOn(t.tasks), DependsOn(AfterInsert(t, spec, created).tasks);
    var before := AcyclicHasRank(g);
    var top := RankBound(t.tasks.Keys, before);
    var rank := (u: string) => if u == id then top + 1 else before(u);
    forall u, v | Edge(g', u, v) ensures rank(v) < rank(u) {
      if u != id { assert Edge(g, u, v); }
    }
    RankedIsAcyclic(g', rank);
  }

  lemma InsertStaysIssued(t: Table, spec: Spec, created: int)
    requires Issued(t)
    ensures Issued(AfterInsert(t, spec, created))
    ensures TaskId(spec.project, Last(t.last, spec.project) + 1) !in t.tasks
  {
    hide TaskId;
    var t' := AfterInsert(t, spec, created);
    var id' := TaskId(spec.project, Last(t.last, spec.project) + 1);
    NextIdIsFresh(t, spec.project, Last(t.last, spec.project) + 1);
    forall id | id in t'.tasks ensures Allocated(t', id) {
      if id != id' {
        assert Allocated(t, id);
        var k :| 1 <= k <= Last(t.last, t.tasks[id].project) && id == TaskId(t.tasks[id].project, k);
      }
    }
  }

  lemma InsertStaysSound(t: Table, spec: Spec, created: int)
    requires Sound(t)
    requires forall d :: d in spec.deps ==> d in t.tasks && t.tasks[d].project == spec.project
    ensures Sound(AfterInsert(t, spec, created))
    ensures TaskId(spec.project, Last(t.last, spec.project) + 1) !in t.tasks
  {
    hide TaskId;
    hide Acyclic;
    hide Issued;
    var t' := AfterInsert(t, spec, created);
    var id' := TaskId(spec.project, Last(t.last, spec.project) + 1);
    InsertStaysAcyclic(t, spec, created);
    InsertStaysIssued(t, spec, created);
    forall id, d | Edge(DependsOn(t'.tasks), id, d)
      ensures d in t'.tasks && t'.tasks[d].project == t'.tasks[id].project
    {
      if id != id' { assert Edge(DependsOn(t.tasks), id, d); }
    }
  }

  // --- runs of the whole table ------------------------------------------------------

  /** Everything that writes rows: single inserts and imports, approvals, and the
      lifecycle, which changes no project and no dependency. */
  datatype Event =
    | Insert(spec: Spec, created: int)
    | Approve(project: string, specs: seq<Spec>, clock: nat -> int)
    | Lifecycle(tasks: map<string, Task>)

  /** What the writing methods have checked by the time they write, in a forced approval too. */
  ghost predicate Admitted(t: Table, e: Event) {
    match e
    case Insert(spec, _) => forall d :: d in spec.deps ==> d in t.tasks && t.tasks[d].project == spec.project
    case Approve(project, specs, _) => Homely(t.tasks, project, specs)
    case Lifecycle(tasks) =>
      tasks.Keys == t.tasks.Keys
      && forall id :: id in tasks ==> tasks[id].deps == t.tasks[id].deps && tasks[id].project == t.tasks[id].project
  }

  /** What they have checked when no approval is forced. */
  ghost predicate Checked(t: Table, e: Event) {
    Admitted(t, e) && (e.Approve? ==> GraphClean(e.specs, t.tasks.Keys))
  }

  function Write(t: Table, e: Event): Table {
    match e
    case Insert(spec, created) => AfterInsert(t, spec, created)
    case Approve(project, specs, clock) => AfterApproval(t, project, specs, clock)
    case Lifecycle(tasks) => t.(tasks := tasks)
  }

  ghost predicate CheckedRun(t: Table, run: seq<Event>)
    decreases |run|
  {
    run == [] || (Checked(t, run[0]) && CheckedRun(Write(t, run[0]), run[1..]))
  }

  function WriteAll(t: Table, run: seq<Event>): Table
    decreases |run|
  {
    if run == [] then t else WriteAll(Write(t, run[0]), run[1..])
  }

  predicate KeepsRows(t: Table, t': Table) {
    forall id :: id in t.tasks ==> id in t'.tasks && t'.tasks[id].deps == t.tasks[id].deps
  }

  lemma LifecycleStaysIssued(t: Table, tasks: map<string, Task>)
    requires Issued(t) && Admitted(t, Lifecycle(tasks))
    ensures Issued(t.(tasks := tasks)) && DependsOn(tasks) == DependsOn(t.tasks)
  {
    hide TaskId;
    var t' := t.(tasks := tasks);
    forall id | id in t'.tasks ensures Allocated(t', id) {
      assert Allocated(t, id);
      var n :| 1 <= n <= Last(t.last, t.tasks[id].project) && id == TaskId(t.tasks[id].project, n);
    }
  }

  lemma WriteStaysIssued(t: Table, e: Event)
    requires Issued(t) && Admitted(t, e)
    ensures Issued(Write(t, e)) && KeepsRows(t, Write(t, e))
  {
    hide TaskId;
    hide Issued;
    hide AfterApproval;
    match e
    case Insert(spec, created) => InsertStaysIssued(t, spec, created);
    case Approve(project, specs, clock) =>
      ApprovalKeepsRows(t, project, specs, clock);
      ApprovalStaysIssued(t, project, specs, clock);
    case Lifecycle(tasks) => LifecycleStaysIssued(t, tasks);
  }

  lemma WriteStaysSound(t: Table, e: Event)
    requires Sound(t) && Checked(t, e)
    ensures Sound(Write(t, e)) && KeepsRows(t, Write(t, e))
  {
    hide TaskId;
    hide Issued;
    hide Acyclic;
    hide GraphClean;
    WriteStaysIssued(t, e);
    match e
    case Insert(spec, created) => InsertStaysSound(t, spec, created);
    case Approve(project, specs, clock) => ApprovalStaysSound(t, project, specs, clock);
    case Lifecycle(tasks) => LifecycleStaysIssued(t, tasks);
  }

  /** No run of inserts, imports, approvals and lifecycle changes ever closes a dependency
      cycle, dangles a reference, or rewrites a dependency. */
  lemma {:induction false} TableStaysAcyclic(t: Table, run: seq<Event>)
    requires Sound(t) && CheckedRun(t, run)
    ensures Sound(WriteAll(t, run)) && Acyclic(DependsOn(WriteAll(t, run).tasks))
    ensures KeepsRows(t, WriteAll(t, run))
    decreases |run|
  {
    hide Write;
    hide Checked;
    if run != [] {
      WriteStaysSound(t, run[0]);
      TableStaysAcyclic(Write(t, run[0]), run[1..]);
    }
  }

  // --- forced approvals ---------------------------------------------------------------
  //
  // A forced approval may store a reference to an id that is not handed out yet: one of its own batch, or a
  // later one. The reference comes alive when a later write hands the id out.

  /** What is left of a sound table when approvals may be forced. */
  ghost predicate Loose(t: Table) {
    Issued(t) && Acyclic(DependsOn(t.tasks))
  }

  /** The id the next task of the project will get. */
  function NextId(t: Table, project: string): string {
    TaskId(project, Last(t.last, project) + 1)
  }

  /** A dependency of the new row leads to the id that the row is about to get. */
  predicate ClosesOnInsert(t: Table, spec: Spec) {
    exists d :: d in spec.deps && Leads(DependsOn(t.tasks), d, NextId(t, spec.project))
  }

  /** A dependency of row i, as it will be stored, leads to id. */
  predicate Foretold(t: Table, specs: seq<Spec>, ids: seq<string>, i: nat, id: string)
    requires i < |specs|
  {
    exists d :: d in specs[i].deps && Leads(DependsOn(t.tasks), Resolved(LocalIndex(specs), ids, d), id)
  }

  /** The rows of the batch that row i will lead to, directly or through rows of the table. */
  function Targets(t: Table, specs: seq<Spec>, ids: seq<string>, i: nat, n: nat): (targets: seq<nat>)
    requires i < |specs| && n <= |ids|
    ensures forall j: nat :: j in targets <==> j < n && Foretold(t, specs, ids, i, ids[j])
  {
    if n == 0 then []
    else Targets(t, specs, ids, i, n - 1) + if Foretold(t, specs, ids, i, ids[n - 1]) then [n - 1] else []
  }

  /** How the rows of a batch will lead to each other, known before anything is written. */
  function PredictedGraph(t: Table, project: string, specs: seq<Spec>): Graph<nat> {
    var ids := BatchIds(project, Last(t.last, project), |specs|);
    map i: nat | i < |specs| :: Targets(t, specs, ids, i, |specs|)
  }

  lemma ApprovalGrows(t: Table, project: string, specs: seq<Spec>, clock: nat -> int)
    requires Issued(t)
    ensures Grows(DependsOn(t.tasks), DependsOn(AfterApproval(t, project, specs, clock).tasks),
                  BatchIds(project, Last(t.last, project), |specs|))
  {
    hide TaskId;
    hide Issued;
    hide AfterApproval;
    ApprovalKeepsRows(t, project, specs, clock);
  }

  lemma PredictedEdges(t: Table, project: string, specs: seq<Spec>, clock: nat -> int, i: nat, j: nat)
    requires Loose(t) && i < |specs| && j < |specs|
    ensures var ids := BatchIds(project, Last(t.last, project), |specs|);
            Edge(PredictedGraph(t, project, specs), i, j)
            <==> Through(DependsOn(t.tasks), DependsOn(AfterApproval(t, project, specs, clock).tasks), ids[i], ids[j])
  {
    hide TaskId;
    hide Issued;
    hide Acyclic;
    hide AfterApproval;
    hide Reaches;
    hide Leads;
    hide DependsOn;
    hide Resolved;
    hide LocalIndex;
    var ids := BatchIds(project, Last(t.last, project), |specs|);
    var g, g' := DependsOn(t.tasks), DependsOn(AfterApproval(t, project, specs, clock).tasks);
    forall v ensures Edge(g', ids[i], v) <==> StoredAs(specs, ids, i, v) { RowEdges(t, project, specs, clock, i, v); }
    forall v ensures Leads(g, v, ids[j]) <==> Reaches(g, v, ids[j]) { LeadsIffReaches(g, v, ids[j]); }
    assert Edge(PredictedGraph(t, project, specs), i, j) <==> Foretold(t, specs, ids, i, ids[j]);
    hide PredictedGraph;
    hide Edge;
  }

  lemma PredictedInside(t: Table, project: string, specs: seq<Spec>, i: nat, j: nat)
    requires Edge(PredictedGraph(t, project, specs), i, j)
    ensures i < |specs| && j < |specs|
  {
    hide Foretold;
  }

  /** Any approval, forced or not, keeps the table acyclic precisely when the graph predicted for its
      batch is acyclic. */
  lemma ApprovalAcyclicIff(t: Table, project: string, specs: seq<Spec>, clock: nat -> int)
    requires Loose(t)
    ensures Acyclic(DependsOn(AfterApproval(t, project, specs, clock).tasks)) <==> Acyclic(PredictedGraph(t, project, specs))
  {
    hide TaskId;
    hide AfterApproval;
    hide Acyclic;
    hide Edge;
    hide Issued;
    hide Through;
    hide Grows;
    hide PredictedGraph;
    var ids := BatchIds(project, Last(t.last, project), |specs|);
    var g, g', h := DependsOn(t.tasks), DependsOn(AfterApproval(t, project, specs, clock).tasks), PredictedGraph(t, project, specs);
    ApprovalGrows(t, project, specs, clock);
    assert Condenses(g, g', ids, h) by {
      forall i: nat, j: nat | Edge(h, i, j) ensures i < |ids| && j < |ids| { PredictedInside(t, project, specs, i, j); }
      forall i: nat, j: nat | i < |ids| && j < |ids| ensures Edge(h, i, j) <==> Through(g, g', ids[i], ids[j]) {
        PredictedEdges(t, project, specs, clock, i, j);
      }
    }
    GrowthIsAcyclicIff(g, g', ids, h);
  }

  lemma LoopIsCyclic(h: Graph<nat>)
    requires h == map[0 := [0]]
    ensures !Acyclic(h)
  {
    assert Walk(h, [0, 0]);
  }

  lemma PointIsAcyclic(h: Graph<nat>)
    requires h == map[0 := []]
    ensures Acyclic(h)
  {
    var rank: nat -> nat := _ => 0;
    RankedIsAcyclic(h, rank);
  }

  /** A single insert keeps the table acyclic precisely when no dependency of the new row already leads to
      the id it is about to get. */
  lemma InsertAcyclicIff(t: Table, spec: Spec, created: int)
    requires Loose(t)
    ensures Acyclic(DependsOn(AfterInsert(t, spec, created).tasks)) <==> !ClosesOnInsert(t, spec)
  {
    hide TaskId;
    hide Acyclic;
    hide Reaches;
    hide Leads;
    var id := NextId(t, spec.project);
    var g, g' := DependsOn(t.tasks), DependsOn(AfterInsert(t, spec, created).tasks);
    NextIdIsFresh(t, spec.project, Last(t.last, spec.project) + 1);
    hide Issued;
    forall v ensures Leads(g, v, id) <==> Reaches(g, v, id) { LeadsIffReaches(g, v, id); }
    assert Through(g, g', id, id) <==> ClosesOnInsert(t, spec) by {
      forall v ensures Edge(g', id, v) <==> v in spec.deps { }
    }
    assert Grows(g, g', [id]);
    var h: Graph<nat> := if ClosesOnInsert(t, spec) then map[0 := [0]] else map[0 := []];
    if ClosesOnInsert(t, spec) { LoopIsCyclic(h); } else { PointIsAcyclic(h); }
    assert Condenses(g, g', [id], h);
    GrowthIsAcyclicIff(g, g', [id], h);
  }

  /** The condition under which a write closes no cycle. */
  ghost predicate Guard(t: Table, e: Event) {
    match e
    case Insert(spec, _) => !ClosesOnInsert(t, spec)
    case Approve(project, specs, _) => Acyclic(PredictedGraph(t, project, specs))
    case Lifecycle(_) => true
  }

  ghost predicate AdmittedRun(t: Table, run: seq<Event>)
    decreases |run|
  {
    run == [] || (Admitted(t, run[0]) && AdmittedRun(Write(t, run[0]), run[1..]))
  }

  ghost predicate GuardedRun(t: Table, run: seq<Event>)
    decreases |run|
  {
    run == [] || (Guard(t, run[0]) && GuardedRun(Write(t, run[0]), run[1..]))
  }

  lemma WriteAcyclicIff(t: Table, e: Event)
    requires Loose(t) && Admitted(t, e)
    ensures Acyclic(DependsOn(Write(t, e).tasks)) <==> Guard(t, e)
  {
    hide TaskId;
    hide Acyclic;
    hide ClosesOnInsert;
    hide PredictedGraph;
    hide AfterInsert;
    hide AfterApproval;
    match e
    case Insert(spec, created) => InsertAcyclicIff(t, spec, created);
    case Approve(project, specs, clock) => ApprovalAcyclicIff(t, project, specs, clock);
    case Lifecycle(tasks) => LifecycleStaysIssued(t, tasks);
  }

  lemma {:induction false} RunKeepsRows(t: Table, run: seq<Event>)
    requires Issued(t) && AdmittedRun(t, run)
    ensures KeepsRows(t, WriteAll(t, run))
    decreases |run|
  {
    hide Write;
    hide Admitted;
    hide Issued;
    if run != [] {
      WriteStaysIssued(t, run[0]);
      RunKeepsRows(Write(t, run[0]), run[1..]);
    }
  }

  lemma CyclesStay(t: Table, t': Table)
    requires KeepsRows(t, t') && Acyclic(DependsOn(t'.tasks))
    ensures Acyclic(DependsOn(t.tasks))
  {
    var g, g' := DependsOn(t.tasks), DependsOn(t'.tasks);
    forall p: seq<string> | |p| >= 2 && Walk(g, p) ensures p[0] != p[|p| - 1] {
      forall i | 0 < i < |p| ensures Edge(g', p[i - 1], p[i]) { assert Edge(g, p[i - 1], p[i]); }
      assert Walk(g', p);
    }
  }

  /** Whatever is forced: a run ends in an acyclic table precisely when each of its writes met its condition. */
  lemma {:induction false} RunAcyclicIff(t: Table, run: seq<Event>)
    requires Loose(t) && AdmittedRun(t, run)
    ensures Acyclic(DependsOn(WriteAll(t, run).tasks)) <==> GuardedRun(t, run)
    decreases |run|
  {
    hide Write;
    hide Admitted;
    hide Guard;
    hide Acyclic;
    hide Issued;
    if run != [] {
      var t' := Write(t, run[0]);
      WriteAcyclicIff(t, run[0]);
      WriteStaysIssued(t, run[0]);
      if Guard(t, run[0]) {
        RunAcyclicIff(t', run[1..]);
      } else if Acyclic(DependsOn(WriteAll(t', run[1..]).tasks)) {
        RunKeepsRows(t', run[1..]);
        CyclesStay(t', WriteAll(t', run[1..]));
      }
    }
  }

  // --- tables that no later write can turn ---------------------------------------------

  /** A project may still hand the id out. */
  ghost predicate Unissued(t: Table, id: string) {
    exists project, n :: n > Last(t.last, project) && id == TaskId(project, n)
  }

  /** No stored dependency names an id that is still to be handed out. */
  ghost predicate Anchored(t: Table) {
    Loose(t) && forall u, d :: Edge(DependsOn(t.tasks), u, d) ==> !Unissued(t, d)
  }

  lemma RowsAreIssued(t: Table, id: string)
    requires Issued(t) && id in t.tasks
    ensures !Unissued(t, id)
  {
    hide TaskId;
    if project, n :| n > Last(t.last, project) && id == TaskId(project, n) {
      NextIdIsFresh(t, project, n);
    }
  }

  lemma SoundIsAnchored(t: Table)
    requires Sound(t)
    ensures Anchored(t)
  {
    hide Unissued;
    hide Acyclic;
    hide Issued;
    forall u, d | Edge(DependsOn(t.tasks), u, d) ensures !Unissued(t, d) { RowsAreIssued(t, d); }
  }

  lemma OnlyItselfLeadsToUnissued(t: Table, u: string, id: string)
    requires Anchored(t) && Unissued(t, id) && Leads(DependsOn(t.tasks), u, id)
    ensures u == id
  {
    hide Unissued;
    hide Acyclic;
    var g := DependsOn(t.tasks);
    LeadsIffReaches(g, u, id);
    var p :| Walk(g, p) && p[0] == u && p[|p| - 1] == id;
    if |p| > 1 { assert Edge(g, p[|p| - 2], p[|p| - 1]); }
  }

  lemma BatchIdsUnissued(t: Table, project: string, n: nat, j: nat)
    requires j < n
    ensures Unissued(t, BatchIds(project, Last(t.last, project), n)[j])
  {
    hide TaskId;
    assert BatchIds(project, Last(t.last, project), n)[j] == TaskId(project, Last(t.last, project) + 1 + j);
  }

  /** On an anchored table the prediction for a clean proposal is the proposal's own graph. */
  lemma CleanPrediction(t: Table, project: string, specs: seq<Spec>, i: nat, j: nat)
    requires Anchored(t) && GraphClean(specs, t.tasks.Keys) && i < |specs| && j < |specs|
    ensures Edge(PredictedGraph(t, project, specs), i, j) <==> Edge(LocalGraph(specs), i, j)
  {
    hide TaskId;
    hide GraphClean;
    hide LocalGraph;
    hide Unissued;
    hide LocalIndex;
    hide Resolved;
    hide DependsOn;
    var ids := BatchIds(project, Last(t.last, project), |specs|);
    BatchIdsFresh(t, project, |specs|);
    BatchIdsUnissued(t, project, |specs|, j);
    hide Anchored;
    forall v ensures Leads(DependsOn(t.tasks), v, ids[j]) <==> v == ids[j] {
      if Leads(DependsOn(t.tasks), v, ids[j]) { OnlyItselfLeadsToUnissued(t, v, ids[j]); }
    }
    hide Leads;
    assert Foretold(t, specs, ids, i, ids[j]) <==> StoredAs(specs, ids, i, ids[j]);
    assert Edge(PredictedGraph(t, project, specs), i, j) <==> Foretold(t, specs, ids, i, ids[j]);
    hide StoredAs;
    hide Foretold;
    InsideEdges(specs, t.tasks.Keys, ids, i, j);
  }

  /** The test to make before an approval is forced: the predicted graph is acyclic, and no dependency, as it
      will be stored, names an id that will still be to come. */
  ghost predicate Foreseen(t: Table, e: Event) {
    match e
    case Approve(project, specs, clock) =>
      && Acyclic(PredictedGraph(t, project, specs))
      && var ids := BatchIds(project, Last(t.last, project), |specs|);
         forall i: nat, id :: i < |specs| && StoredAs(specs, ids, i, id) ==> !Unissued(AfterApproval(t, project, specs, clock), id)
    case _ => true
  }

  lemma StaysIssued(t: Table, t': Table, id: string)
    requires !Unissued(t, id) && forall project :: Last(t.last, project) <= Last(t'.last, project)
    ensures !Unissued(t', id)
  {
    hide TaskId;
    if project, n :| n > Last(t'.last, project) && id == TaskId(project, n) {
      assert n > Last(t.last, project);
    }
  }

  lemma CountersGrow(t: Table, e: Event, project: string)
    ensures Last(t.last, project) <= Last(Write(t, e).last, project)
  {
  }

  lemma InsertIsGuarded(t: Table, spec: Spec, created: int)
    requires Anchored(t) && Admitted(t, Insert(spec, created))
    ensures !ClosesOnInsert(t, spec)
  {
    hide TaskId;
    hide Leads;
    var id := NextId(t, spec.project);
    NextIdIsFresh(t, spec.project, Last(t.last, spec.project) + 1);
    if d :| d in spec.deps && Leads(DependsOn(t.tasks), d, id) {
      OnlyItselfLeadsToUnissued(t, d, id);
    }
  }

  lemma InsertStaysAnchored(t: Table, spec: Spec, created: int)
    requires Anchored(t) && Admitted(t, Insert(spec, created))
    ensures Anchored(AfterInsert(t, spec, created))
  {
    hide TaskId;
    hide Acyclic;
    hide Issued;
    hide Unissued;
    hide ClosesOnInsert;
    var t' := AfterInsert(t, spec, created);
    InsertIsGuarded(t, spec, created);
    InsertAcyclicIff(t, spec, created);
    InsertStaysIssued(t, spec, created);
    forall u, d | Edge(DependsOn(t'.tasks), u, d) ensures !Unissued(t', d) {
      if u == NextId(t, spec.project) {
        RowsAreIssued(t', d);
      } else {
        assert Edge(DependsOn(t.tasks), u, d);
        StaysIssued(t, t', d);
      }
    }
  }

  lemma ApprovalAnchoredIff(t: Table, project: string, specs: seq<Spec>, clock: nat -> int)
    requires Anchored(t) && Homely(t.tasks, project, specs)
    ensures Anchored(AfterApproval(t, project, specs, clock)) <==> Foreseen(t, Approve(project, specs, clock))
  {
    hide TaskId;
    hide Acyclic;
    hide Issued;
    hide Unissued;
    hide StoredAs;
    hide PredictedGraph;
    hide DependsOn;
    var e := Approve(project, specs, clock);
    var t', ids := AfterApproval(t, project, specs, clock), BatchIds(project, Last(t.last, project), |specs|);
    ApprovalAcyclicIff(t, project, specs, clock);
    ApprovalStaysIssued(t, project, specs, clock);
    ApprovalGrows(t, project, specs, clock);
    forall i: nat, id | i < |specs| ensures Edge(DependsOn(t'.tasks), ids[i], id) <==> StoredAs(specs, ids, i, id) {
      RowEdges(t, project, specs, clock, i, id);
    }
    forall p ensures Last(t.last, p) <= Last(t'.last, p) { CountersGrow(t, e, p); }
    hide AfterApproval;
    hide Edge;
    hide BatchIds;
    forall u, d | Edge(DependsOn(t'.tasks), u, d) && u !in ids ensures !Unissued(t', d) {
      assert Edge(DependsOn(t.tasks), u, d);
      StaysIssued(t, t', d);
    }
  }

  /** A write keeps an anchored table anchored precisely when it passes the test, which only approvals can fail. */
  lemma WriteAnchoredIff(t: Table, e: Event)
    requires Anchored(t) && Admitted(t, e)
    ensures Anchored(Write(t, e)) <==> Foreseen(t, e)
  {
    hide TaskId;
    hide Acyclic;
    hide Issued;
    hide Unissued;
    hide AfterInsert;
    hide AfterApproval;
    match e
    case Insert(spec, created) => InsertStaysAnchored(t, spec, created);
    case Approve(project, specs, clock) => hide Anchored; ApprovalAnchoredIff(t, project, specs, clock);
    case Lifecycle(tasks) =>
      LifecycleStaysIssued(t, tasks);
      var t' := t.(tasks := tasks);
      forall u, d | Edge(DependsOn(t'.tasks), u, d) ensures !Unissued(t', d) {
        assert Edge(DependsOn(t.tasks), u, d);
        StaysIssued(t, t', d);
      }
  }

  /** An unforced approval always passes it. */
  lemma CleanIsForeseen(t: Table, project: string, specs: seq<Spec>, clock: nat -> int)
    requires Anchored(t) && GraphClean(specs, t.tasks.Keys) && Homely(t.tasks, project, specs)
    ensures Foreseen(t, Approve(project, specs, clock))
  {
    hide TaskId;
    hide Unissued;
    hide Issued;
    hide StoredAs;
    hide LocalGraph;
    hide PredictedGraph;
    hide AfterApproval;
    hide Edge;
    var t', ids := AfterApproval(t, project, specs, clock), BatchIds(project, Last(t.last, project), |specs|);
    var g, h := PredictedGraph(t, project, specs), LocalGraph(specs);
    var rank := AcyclicHasRank(h);
    forall i: nat, j: nat | Edge(g, i, j) ensures rank(j) < rank(i) {
      PredictedInside(t, project, specs, i, j);
      CleanPrediction(t, project, specs, i, j);
    }
    RankedIsAcyclic(g, rank);
    hide Acyclic;
    ApprovalKeepsRows(t, project, specs, clock);
    ApprovalStaysIssued(t, project, specs, clock);
    forall i: nat, id | i < |specs| && StoredAs(specs, ids, i, id) ensures !Unissued(t', id) {
      if id !in ids { OutsideEdges(specs, t.tasks.Keys, ids, i, id); }
      RowsAreIssued(t', id);
    }
  }

  ghost predicate ForeseenRun(t: Table, run: seq<Event>)
    decreases |run|
  {
    run == [] || (Admitted(t, run[0]) && (Checked(t, run[0]) || Foreseen(t, run[0])) && ForeseenRun(Write(t, run[0]), run[1..]))
  }

  /** If every forced approval of a run passes the test, inserts, unforced approvals and lifecycle changes need
      none: no write ever closes a cycle. */
  lemma {:induction false} ForeseenStaysAcyclic(t: Table, run: seq<Event>)
    requires Anchored(t) && ForeseenRun(t, run)
    ensures Anchored(WriteAll(t, run)) && Acyclic(DependsOn(WriteAll(t, run).tasks))
    decreases |run|
  {
    hide Write;
    hide Admitted;
    hide Foreseen;
    hide GraphClean;
    hide Homely;
    hide Acyclic;
    hide Issued;
    hide Unissued;
    if run != [] {
      if Checked(t, run[0]) { CheckedIsForeseen(t, run[0]); }
      WriteAnchoredIff(t, run[0]);
      ForeseenStaysAcyclic(Write(t, run[0]), run[1..]);
    }
  }

  lemma CheckedIsForeseen(t: Table, e: Event)
    requires Anchored(t) && Checked(t, e)
    ensures Foreseen(t, e)
  {
    hide Anchored;
    hide GraphClean;
    if e.Approve? { CleanIsForeseen(t, e.project, e.specs, e.clock); }
  }

  function Filler(project: string, deps: seq<string>): Spec {
    Spec("", project, "title", "objective", ["$ true"], 100, 6, deps, [])
  }

  /** The shortest cycle of a batch by itself: a forced approval may name the id its own row is about to get. */
  lemma ForcedSelfReference(t: Table, project: string, specs: seq<Spec>, clock: nat -> int, i: nat)
    requires Issued(t) && i < |specs|
    requires var id := TaskId(project, Last(t.last, project) + 1 + i);
             id in specs[i].deps && id !in LocalIndex(specs)
    ensures !Acyclic(DependsOn(AfterApproval(t, project, specs, clock).tasks))
  {
    hide TaskId;
    hide Issued;
    hide DependsOn;
    hide AfterApproval;
    hide LocalIndex;
    var id := TaskId(project, Last(t.last, project) + 1 + i);
    var g := DependsOn(AfterApproval(t, project, specs, clock).tasks);
    var ids := BatchIds(project, Last(t.last, project), |specs|);
    assert Resolved(LocalIndex(specs), ids, id) == id == ids[i];
    RowEdges(t, project, specs, clock, i, id);
    hide StoredAs;
    ReachesSelf(g, id);
    CycleEdgeRefutesAcyclic(g, id, id);
  }

  lemma EmptyIsSound()
    ensures Sound(Table(map[], map[]))
  {
    var rank: string -> nat := _ => 0;
    RankedIsAcyclic(DependsOn(Table(map[], map[]).tasks), rank);
  }

  lemma ForcedApprovalCanCloseCycle() returns (specs: seq<Spec>)
    ensures var t := Table(map[], map[]);
            && Sound(t) && Homely(t.tasks, "p", specs)
            && !Acyclic(DependsOn(AfterApproval(t, "p", specs, (n: nat) => 0).tasks))
  {
    hide TaskId;
    hide AfterApproval;
    specs := [Filler("p", [TaskId("p", 1)])];
    EmptyIsSound();
    ForcedSelfReference(Table(map[], map[]), "p", specs, (n: nat) => 0, 0);
  }

  /** The row that names the next id, and an insert that depends on the row. */
  lemma InsertClosesLoop(t: Table, u: string, project: string)
    requires u in t.tasks && NextId(t, project) in t.tasks[u].deps && u != NextId(t, project)
    ensures !Acyclic(DependsOn(AfterInsert(t, Filler(project, [u]), 0).tasks))
  {
    hide TaskId;
    var g, id := DependsOn(AfterInsert(t, Filler(project, [u]), 0).tasks), NextId(t, project);
    assert Edge(g, u, id) && Edge(g, id, u);
    assert Walk(g, [u, id, u]);
  }

  lemma TaskIdDiffers()
    ensures TaskId("p", 1) != TaskId("p", 2)
  {
    hide TaskId;
    if TaskId("p", 1) == TaskId("p", 2) { TaskIdInjective("p", 1, "p", 2); }
  }

  lemma AfterForced(specs: seq<Spec>, clock: nat -> int)
    requires specs == [Filler("p", [TaskId("p", 2)])]
    ensures var t := AfterApproval(Table(map[], map[]), "p", specs, clock);
            && t.tasks.Keys == {TaskId("p", 1)} && t.tasks[TaskId("p", 1)].deps == [TaskId("p", 2)]
            && t.tasks[TaskId("p", 1)].project == "p" && t.last == map["p" := 1]
            && Acyclic(DependsOn(t.tasks))
  {
    hide TaskId;
    hide WithRows;
    hide BatchRows;
    hide LocalIndex;
    hide Acyclic;
    hide Issued;
    var t := Table(map[], map[]);
    EmptyIsSound();
    assert BatchIds("p", 0, 1) == [TaskId("p", 1)];
    TaskIdDiffers();
    NewRowDeps(t, "p", specs, clock, 0);
    ApprovalKeepsRows(t, "p", specs, clock);
    assert TaskId("p", 2) !in LocalIndex(specs);
    var rank := (id: string) => if id == TaskId("p", 1) then 1 else 0;
    RankedIsAcyclic(DependsOn(AfterApproval(t, "p", specs, clock).tasks), rank);
  }

  /** A cycle may also close after the forced approval, by an insert that passes every check. */
  lemma CycleMayCloseLater() returns (forced: Event, insert: Event)
    ensures var t := Table(map[], map[]);
            && Sound(t) && Admitted(t, forced) && Acyclic(DependsOn(Write(t, forced).tasks))
            && insert.Insert? && Checked(Write(t, forced), insert)
            && !Acyclic(DependsOn(Write(Write(t, forced), insert).tasks))
  {
    hide TaskId;
    hide Acyclic;
    hide AfterApproval;
    var specs, clock := [Filler("p", [TaskId("p", 2)])], (n: nat) => 0;
    forced, insert := Approve("p", specs, clock), Insert(Filler("p", [TaskId("p", 1)]), 0);
    EmptyIsSound();
    AfterForced(specs, clock);
    TaskIdDiffers();
    hide AfterInsert;
    InsertClosesLoop(Write(Table(map[], map[]), forced), TaskId("p", 1), "p");
  }

  // --- readiness -----------------------------------------------------------------

  predicate Accepted(tasks: map<string, Task>, id: string) {
    id in tasks && tasks[id].status == Done
  }

  predicate Ready(tasks: map<string, Task>, id: string) {
    id in tasks && tasks[id].status == Queued && forall d :: d in tasks[id].deps ==> Accepted(tasks, d)
  }

  /** Everything the task waits for, directly or not, is queued or accepted. */
  ghost predicate Hopeful(tasks: map<string, Task>, id: string) {
    forall v :: Reaches(DependsOn(tasks), id, v) ==> v in tasks && tasks[v].status in {Queued, Done}
  }

  lemma HopePassesOn(tasks: map<string, Task>, id: string, d: string)
    requires Hopeful(tasks, id) && Edge(DependsOn(tasks), id, d)
    ensures Hopeful(tasks, d) && d in tasks && tasks[d].status in {Queued, Done}
  {
    var g := DependsOn(tasks);
    assert Walk(g, [id, d]) && [id, d][0] == id && [id, d][1] == d;
    assert Reaches(g, id, d);
    forall v | Reaches(g, d, v) ensures v in tasks && tasks[v].status in {Queued, Done} {
      var p :| Walk(g, p) && p[0] == d && p[|p| - 1] == v;
      var q := [id] + p;
      assert forall i :: 1 <= i < |q| ==> q[i] == p[i - 1];
      assert Walk(g, q) && q[0] == id && q[|q| - 1] == v;
      assert Reaches(g, id, v);
    }
  }

  lemma {:induction false} ReadyBelow(tasks: map<string, Task>, id: string, rank: string -> nat) returns (ready: string)
    requires Ranked(DependsOn(tasks), rank)
    requires id in tasks && tasks[id].status == Queued && Hopeful(tasks, id)
    ensures Ready(tasks, ready)
    decreases rank(id)
  {
    if Ready(tasks, id) {
      ready := id;
    } else {
      var d :| d in tasks[id].deps && !Accepted(tasks, d);
      assert Edge(DependsOn(tasks), id, d);
      HopePassesOn(tasks, id, d);
      ready := ReadyBelow(tasks, d, rank);
    }
  }

  /** The queue cannot deadlock: an acyclic table with a queued task that waits only
      for queued or accepted tasks has a ready task. */
  lemma QueueIsLive(tasks: map<string, Task>, id: string)
    requires Acyclic(DependsOn(tasks))
    requires id in tasks && tasks[id].status == Queued && Hopeful(tasks, id)
    ensures exists ready :: Ready(tasks, ready)
  {
    var rank := AcyclicHasRank(DependsOn(tasks));
    var ready := ReadyBelow(tasks, id, rank);
  }
}

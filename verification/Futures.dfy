/** Tables that hold references to ids still to be handed out, as forced approvals may leave them: when can
    ordinary writes, each of which passes every check, still close a dependency cycle? */
module Futures {
  import opened Digraph
  import opened Proposals
  import opened TaskIds
  import opened Tasks

  ghost predicate OpensAt(t: Table, p: string, q: string, u: string, n: nat) {
    && u in t.tasks && t.tasks[u].project == p && n > Last(t.last, q)
    && Reaches(DependsOn(t.tasks), u, TaskId(q, n))
  }

  /** Some row of p leads to an id that q is still to hand out. */
  ghost predicate Opens(t: Table, p: string, q: string) {
    exists u, n :: OpensAt(t, p, q, u, n)
  }

  ghost predicate Settles(t: Table, rank: string -> nat) {
    forall p, q :: Opens(t, p, q) ==> rank(q) < rank(p)
  }

  // --- ordinary writes open nothing new ---------------------------------------------------

  ghost predicate NewIn(t: Table, q: string, u: string) {
    exists n :: n > Last(t.last, q) && u == TaskId(q, n)
  }

  /** A write added rows to project q, and they depend on rows of q only, old or new. */
  ghost predicate AddsRows(t: Table, t': Table, q: string, ids: seq<string>) {
    && Grows(DependsOn(t.tasks), DependsOn(t'.tasks), ids)
    && (forall u :: u in t'.tasks <==> u in t.tasks || u in ids)
    && (forall u :: u in t.tasks ==> u !in ids && t'.tasks[u].project == t.tasks[u].project)
    && (forall u :: u in ids ==> t'.tasks[u].project == q && NewIn(t, q, u))
    && (forall u, v :: Edge(DependsOn(t'.tasks), u, v) && u in ids ==> v in ids || (v in t.tasks && t.tasks[v].project == q))
    && (forall p :: Last(t.last, p) <= Last(t'.last, p))
    && Issued(t')
  }

  /** Where a walk first and last meets the ids. */
  lemma FirstAndLast(w: seq<string>, ids: seq<string>) returns (first: nat, last: int)
    ensures if first < |w| then w[first] in ids && first <= last < |w| && w[last] in ids else first == |w|
    ensures forall k :: 0 <= k < first ==> w[k] !in ids
    ensures first < |w| ==> forall k :: last < k < |w| ==> w[k] !in ids
  {
    first, last := 0, |w| - 1;
    while first < |w| && w[first] !in ids
      invariant first <= |w| && forall k :: 0 <= k < first ==> w[k] !in ids
    {
      first := first + 1;
    }
    while first < last && w[last] !in ids
      invariant -1 <= last < |w| && (first < |w| ==> first <= last)
      invariant forall k :: last < k < |w| ==> w[k] !in ids
    {
      last := last - 1;
    }
  }

  lemma OldStretch(g: Graph<string>, g': Graph<string>, ids: seq<string>, w: seq<string>, a: nat, b: nat)
    requires Grows(g, g', ids) && Walk(g', w) && a <= b < |w|
    requires forall k :: a <= k < b ==> w[k] !in ids
    ensures Reaches(g, w[a], w[b])
  {
    var s := w[a..b + 1];
    forall i | 0 < i < |s| ensures Edge(g, s[i - 1], s[i]) {
      assert Edge(g', w[a + i - 1], w[a + i]);
    }
    assert Walk(g, s) && s[0] == w[a] && s[|s| - 1] == w[b];
  }

  lemma WalkFalls(t: Table, t': Table, q: string, ids: seq<string>, rank: string -> nat, w: seq<string>, r: string, n: nat)
    requires AddsRows(t, t', q, ids) && Settles(t, rank)
    requires Walk(DependsOn(t'.tasks), w) && w[0] in t'.tasks && n > Last(t'.last, r) && w[|w| - 1] == TaskId(r, n)
    ensures rank(r) < rank(t'.tasks[w[0]].project)
  {
    hide TaskId;
    hide Reaches;
    hide Settles;
    var g, g', y := DependsOn(t.tasks), DependsOn(t'.tasks), TaskId(r, n);
    NextIdIsFresh(t', r, n);
    hide Issued;
    var first, last := FirstAndLast(w, ids);
    if first == |w| {
      OldStretch(g, g', ids, w, 0, |w| - 1);
      Falls(t, rank, t.tasks[w[0]].project, r, w[0], n);
    } else {
      assert Edge(g', w[last], w[last + 1]);
      OldStretch(g, g', ids, w, last + 1, |w| - 1);
      Falls(t, rank, q, r, w[last + 1], n);
      if first > 0 {
        OldStretch(g, g', ids, w, 0, first);
        assert NewIn(t, q, w[first]);
        var m :| m > Last(t.last, q) && w[first] == TaskId(q, m);
        Falls(t, rank, t.tasks[w[0]].project, q, w[0], m);
      }
    }
  }

  lemma Falls(t: Table, rank: string -> nat, p: string, q: string, u: string, n: nat)
    requires Settles(t, rank) && OpensAt(t, p, q, u, n)
    ensures rank(q) < rank(p)
  {
    hide OpensAt;
    assert Opens(t, p, q);
  }

  lemma RankStays(t: Table, t': Table, q: string, ids: seq<string>, rank: string -> nat)
    requires AddsRows(t, t', q, ids) && Settles(t, rank)
    ensures Settles(t', rank)
  {
    hide TaskId;
    hide AddsRows;
    forall p, r | Opens(t', p, r) ensures rank(r) < rank(p) {
      var u, n :| OpensAt(t', p, r, u, n);
      var w :| Walk(DependsOn(t'.tasks), w) && w[0] == u && w[|w| - 1] == TaskId(r, n);
      WalkFalls(t, t', q, ids, rank, w, r, n);
    }
  }

  /** While the projects can be ranked, no row leads to an id that its own project is still to hand out. */
  lemma NoReturn(t: Table, rank: string -> nat, q: string, v: string, n: nat)
    requires Settles(t, rank) && v in t.tasks && t.tasks[v].project == q && n > Last(t.last, q)
    ensures !Reaches(DependsOn(t.tasks), v, TaskId(q, n))
  {
    hide TaskId;
    hide Reaches;
    hide Settles;
    if Reaches(DependsOn(t.tasks), v, TaskId(q, n)) { Falls(t, rank, q, q, v, n); }
  }

  lemma InsertAdds(t: Table, spec: Spec, created: int)
    requires Issued(t) && Admitted(t, Insert(spec, created))
    ensures AddsRows(t, AfterInsert(t, spec, created), spec.project, [NextId(t, spec.project)])
  {
    hide TaskId;
    hide Issued;
    InsertStaysIssued(t, spec, created);
    assert NewIn(t, spec.project, NextId(t, spec.project));
  }

  lemma InsertSettles(t: Table, spec: Spec, created: int, rank: string -> nat)
    requires Loose(t) && Settles(t, rank) && Admitted(t, Insert(spec, created))
    ensures Loose(AfterInsert(t, spec, created)) && Settles(AfterInsert(t, spec, created), rank)
  {
    hide TaskId;
    hide Acyclic;
    hide Issued;
    hide Settles;
    hide Reaches;
    hide Leads;
    var t', id := AfterInsert(t, spec, created), NextId(t, spec.project);
    var g := DependsOn(t.tasks);
    InsertStaysIssued(t, spec, created);
    if d :| d in spec.deps && Leads(g, d, id) {
      LeadsIffReaches(g, d, id);
      NoReturn(t, rank, spec.project, d, Last(t.last, spec.project) + 1);
    }
    InsertAcyclicIff(t, spec, created);
    InsertAdds(t, spec, created);
    hide AfterInsert;
    hide AddsRows;
    RankStays(t, t', spec.project, [id], rank);
  }

  lemma PredictionIsLocal(t: Table, project: string, specs: seq<Spec>, rank: string -> nat, i: nat, j: nat)
    requires Loose(t) && Settles(t, rank) && GraphClean(specs, t.tasks.Keys) && Homely(t.tasks, project, specs)
    requires i < |specs| && j < |specs|
    requires Foretold(t, specs, BatchIds(project, Last(t.last, project), |specs|), i, BatchIds(project, Last(t.last, project), |specs|)[j])
    ensures Edge(LocalGraph(specs), i, j)
  {
    hide TaskId;
    hide Settles;
    hide Acyclic;
    hide Reaches;
    hide Leads;
    hide Issued;
    hide LocalIndex;
    hide LocalGraph;
    var g, ids, local := DependsOn(t.tasks), BatchIds(project, Last(t.last, project), |specs|), LocalIndex(specs);
    var d :| d in specs[i].deps && Leads(g, Resolved(local, ids, d), ids[j]);
    BatchIdsFresh(t, project, |specs|);
    LeadsIffReaches(g, Resolved(local, ids, d), ids[j]);
    assert !Unresolved(specs, t.tasks.Keys, i, d);
    if d in local && local[d] < |ids| {
      NowhereFromNew(g, ids[local[d]], ids[j]);
    } else {
      NoReturn(t, rank, project, d, Last(t.last, project) + 1 + j);
    }
    assert StoredAs(specs, ids, i, ids[j]);
    hide GraphClean;
    InsideEdges(specs, t.tasks.Keys, ids, i, j);
  }

  lemma NowhereFromNew(g: Graph<string>, u: string, v: string)
    requires u !in g && Reaches(g, u, v)
    ensures u == v
  {
    var p :| Walk(g, p) && p[0] == u && p[|p| - 1] == v;
    assert |p| > 1 ==> Edge(g, p[0], p[1]);
  }

  lemma ApprovalSettles(t: Table, project: string, specs: seq<Spec>, clock: nat -> int, rank: string -> nat)
    requires Loose(t) && Settles(t, rank) && GraphClean(specs, t.tasks.Keys) && Homely(t.tasks, project, specs)
    ensures Loose(AfterApproval(t, project, specs, clock)) && Settles(AfterApproval(t, project, specs, clock), rank)
  {
    hide TaskId;
    hide Settles;
    hide Acyclic;
    hide Issued;
    hide GraphClean;
    hide Homely;
    hide AddsRows;
    hide AfterApproval;
    var t', ids := AfterApproval(t, project, specs, clock), BatchIds(project, Last(t.last, project), |specs|);
    ApprovalStaysIssued(t, project, specs, clock);
    PredictedIsAcyclic(t, project, specs, rank);
    ApprovalAcyclicIff(t, project, specs, clock);
    ApprovalAdds(t, project, specs, clock);
    RankStays(t, t', project, ids, rank);
  }

  lemma PredictedIsAcyclic(t: Table, project: string, specs: seq<Spec>, rank: string -> nat)
    requires Loose(t) && Settles(t, rank) && GraphClean(specs, t.tasks.Keys) && Homely(t.tasks, project, specs)
    ensures Acyclic(PredictedGraph(t, project, specs))
  {
    hide TaskId;
    hide Settles;
    hide Loose;
    hide Homely;
    hide LocalGraph;
    hide Foretold;
    var h := PredictedGraph(t, project, specs);
    var inside := AcyclicHasRank(LocalGraph(specs));
    hide GraphClean;
    forall i: nat, j: nat | Edge(h, i, j) ensures inside(j) < inside(i) {
      PredictedInside(t, project, specs, i, j);
      PredictionIsLocal(t, project, specs, rank, i, j);
    }
    RankedIsAcyclic(h, inside);
  }

  lemma ApprovalAdds(t: Table, project: string, specs: seq<Spec>, clock: nat -> int)
    requires Issued(t) && GraphClean(specs, t.tasks.Keys) && Homely(t.tasks, project, specs)
    ensures AddsRows(t, AfterApproval(t, project, specs, clock), project, BatchIds(project, Last(t.last, project), |specs|))
  {
    hide TaskId;
    hide Issued;
    hide GraphClean;
    hide WithRows;
    hide BatchRows;
    var t', ids := AfterApproval(t, project, specs, clock), BatchIds(project, Last(t.last, project), |specs|);
    ApprovalKeepsRows(t, project, specs, clock);
    ApprovalGrows(t, project, specs, clock);
    ApprovalStaysIssued(t, project, specs, clock);
    forall p ensures Last(t.last, p) <= Last(t'.last, p) { CountersGrow(t, Approve(project, specs, clock), p); }
    forall u | u in ids ensures t'.tasks[u].project == project && NewIn(t, project, u) {
      NewRowDeps(t, project, specs, clock, IndexOf(ids, u));
    }
    forall u, v | Edge(DependsOn(t'.tasks), u, v) && u in ids && v !in ids
      ensures v in t.tasks && t.tasks[v].project == project
    {
      RowEdges(t, project, specs, clock, IndexOf(ids, u), v);
      OutsideEdges(specs, t.tasks.Keys, ids, IndexOf(ids, u), v);
    }
  }

  lemma WriteSettles(t: Table, e: Event, rank: string -> nat)
    requires Loose(t) && Settles(t, rank) && Checked(t, e)
    ensures Loose(Write(t, e)) && Settles(Write(t, e), rank)
  {
    hide TaskId;
    hide Acyclic;
    hide Issued;
    hide GraphClean;
    hide Homely;
    hide Settles;
    hide AfterInsert;
    hide AfterApproval;
    match e
    case Insert(spec, created) => InsertSettles(t, spec, created, rank);
    case Approve(project, specs, clock) => ApprovalSettles(t, project, specs, clock, rank);
    case Lifecycle(tasks) =>
      LifecycleStaysIssued(t, tasks);
      assert AddsRows(t, t.(tasks := tasks), "", []);
      RankStays(t, t.(tasks := tasks), "", [], rank);
  }

  lemma {:induction false} SettledStaysAcyclic(t: Table, run: seq<Event>, rank: string -> nat)
    requires Loose(t) && Settles(t, rank) && CheckedRun(t, run)
    ensures Acyclic(DependsOn(WriteAll(t, run).tasks))
    decreases |run|
  {
    hide Write;
    hide Checked;
    hide Settles;
    hide Acyclic;
    hide Issued;
    if run != [] {
      WriteSettles(t, run[0], rank);
      SettledStaysAcyclic(Write(t, run[0]), run[1..], rank);
    }
  }

  // --- what is open can be closed ---------------------------------------------------------

  /** Rows stay in their projects, with their dependencies. */
  ghost predicate Keeps(t: Table, t': Table) {
    forall u :: u in t.tasks ==> u in t'.tasks && t'.tasks[u].deps == t.tasks[u].deps && t'.tasks[u].project == t.tasks[u].project
  }

  lemma ReachStays(t: Table, t': Table, u: string, v: string)
    requires Keeps(t, t') && Reaches(DependsOn(t.tasks), u, v)
    ensures Reaches(DependsOn(t'.tasks), u, v)
  {
    var g, g' := DependsOn(t.tasks), DependsOn(t'.tasks);
    var p :| Walk(g, p) && p[0] == u && p[|p| - 1] == v;
    forall i | 0 < i < |p| ensures Edge(g', p[i - 1], p[i]) { assert Edge(g, p[i - 1], p[i]); }
    assert Walk(g', p);
  }

  lemma ReachesThrough(g: Graph<string>, u: string, v: string, w: string)
    requires Reaches(g, u, v) && Reaches(g, v, w)
    ensures Reaches(g, u, w)
  {
    var p :| Walk(g, p) && p[0] == u && p[|p| - 1] == v;
    var q :| Walk(g, q) && q[0] == v && q[|q| - 1] == w;
    var s := p + q[1..];
    forall i | 0 < i < |s| ensures Edge(g, s[i - 1], s[i]) {
      if i < |p| { assert Edge(g, p[i - 1], p[i]); } else { assert Edge(g, q[i - |p|], q[i - |p| + 1]); }
    }
    assert Walk(g, s) && s[0] == u && s[|s| - 1] == w;
  }

  lemma {:induction false} Concatenated(t: Table, run: seq<Event>, more: seq<Event>)
    requires CheckedRun(t, run) && CheckedRun(WriteAll(t, run), more)
    ensures CheckedRun(t, run + more) && WriteAll(t, run + more) == WriteAll(WriteAll(t, run), more)
    decreases |run|
  {
    hide Write;
    hide Checked;
    if run == [] {
      assert run + more == more;
    } else {
      assert (run + more)[0] == run[0] && (run + more)[1..] == run[1..] + more;
      Concatenated(Write(t, run[0]), run[1..], more);
    }
  }

  /** Ordinary inserts hand out ids of q until number n goes to a row that depends on v. */
  lemma {:induction false} Fulfil(t: Table, q: string, n: nat, v: string) returns (run: seq<Event>)
    requires Issued(t) && v in t.tasks && t.tasks[v].project == q && n > Last(t.last, q)
    ensures CheckedRun(t, run)
    ensures var t' := WriteAll(t, run);
            && Issued(t') && Keeps(t, t') && Edge(DependsOn(t'.tasks), TaskId(q, n), v)
            && (forall p :: p != q ==> Last(t'.last, p) == Last(t.last, p))
    decreases n - Last(t.last, q)
  {
    hide TaskId;
    hide Issued;
    var next := Last(t.last, q) + 1;
    var e := Insert(Filler(q, if next == n then [v] else []), 0);
    var t' := Write(t, e);
    InsertStaysIssued(t, e.spec, 0);
    assert Keeps(t, t');
    if next == n {
      run := [e];
      assert run[1..] == [];
    } else {
      var rest := Fulfil(t', q, n, v);
      run := [e] + rest;
      assert run[1..] == rest;
    }
  }

  function Projects(t: Table): set<string> {
    set u | u in t.tasks :: t.tasks[u].project
  }

  ghost function Opened(t: Table, p: string): set<string> {
    set q | q in Named(t) && Opens(t, p, q)
  }

  /** The projects of the rows, each with those it opens. */
  ghost function ProjectGraph(t: Table): Graph<string> {
    map p | p in Projects(t) :: Listed(Opened(t, p))
  }

  ghost function Listed(s: set<string>): (r: seq<string>)
    ensures forall x :: x in r <==> x in s
  {
    if s == {} then []
    else
      var x :| x in s;
      [x] + Listed(s - {x})
  }

  ghost predicate Numbers(q: string, id: string) {
    exists n :: id == TaskId(q, n)
  }

  ghost function ProjectOf(id: string): (q: string)
    ensures (exists q' :: Numbers(q', id)) ==> Numbers(q, id)
  {
    if exists q' :: Numbers(q', id) then
      var q' :| Numbers(q', id);
      q'
    else ""
  }

  /** The projects whose ids occur as dependencies. */
  ghost function Named(t: Table): set<string> {
    set d | d in AllTargets(DependsOn(t.tasks)) :: ProjectOf(d)
  }

  lemma OpenedIsNamed(t: Table, p: string, q: string)
    requires Issued(t) && Opens(t, p, q)
    ensures q in Named(t)
  {
    hide TaskId;
    var u, n :| OpensAt(t, p, q, u, n);
    var g, id := DependsOn(t.tasks), TaskId(q, n);
    NextIdIsFresh(t, q, n);
    hide Issued;
    var w :| Walk(g, w) && w[0] == u && w[|w| - 1] == id;
    assert Edge(g, w[|w| - 2], w[|w| - 1]);
    assert Numbers(q, id) && Numbers(ProjectOf(id), id);
    var m :| id == TaskId(ProjectOf(id), m);
    TaskIdInjective(q, n, ProjectOf(id), m);
  }

  lemma ProjectEdges(t: Table, p: string, q: string)
    requires Issued(t)
    ensures Edge(ProjectGraph(t), p, q) <==> Opens(t, p, q)
  {
    hide Named;
    hide OpensAt;
    if Opens(t, p, q) {
      OpenedIsNamed(t, p, q);
      hide Issued;
      OpenerHasRows(t, p, q);
    }
  }

  lemma OpenerHasRows(t: Table, p: string, q: string)
    requires Opens(t, p, q)
    ensures p in Projects(t)
  {
    var u, n :| OpensAt(t, p, q, u, n);
  }

  lemma {:induction false} SimpleCycle(h: Graph<string>, w: seq<string>) returns (c: seq<string>)
    requires |w| >= 2 && Walk(h, w) && w[0] == w[|w| - 1]
    ensures |c| >= 2 && Walk(h, c) && c[0] == c[|c| - 1] && Distinct(c[1..])
    decreases |w|
  {
    if i: nat, j: nat :| 1 <= i < j < |w| && w[i] == w[j] {
      var s := w[i..j + 1];
      forall k | 0 < k < |s| ensures Edge(h, s[k - 1], s[k]) { assert Edge(h, w[i + k - 1], w[i + k]); }
      c := SimpleCycle(h, s);
    } else {
      c := w;
    }
  }

  ghost predicate OpenCycle(t: Table, w: seq<string>) {
    && |w| >= 2 && w[0] == w[|w| - 1] && Distinct(w[1..])
    && forall i: nat :: i + 1 < |w| ==> Opens(t, w[i], w[i + 1])
  }

  /** What is open to other projects than q stays open when ids of q are handed out. */
  lemma StaysOpen(t: Table, t': Table, q: string, p: string, r: string)
    requires Keeps(t, t') && Opens(t, p, r) && r != q && forall x :: x != q ==> Last(t'.last, x) == Last(t.last, x)
    ensures Opens(t', p, r)
  {
    hide TaskId;
    hide Reaches;
    var u, n :| OpensAt(t, p, r, u, n);
    ReachStays(t, t', u, TaskId(r, n));
    assert OpensAt(t', p, r, u, n);
  }

  /** A project that opened q, and through it what a row v of q opens. */
  lemma OpensFurther(t: Table, t': Table, p: string, q: string, r: string, u: string, n: nat, v: string, m: nat)
    requires Keeps(t, t') && OpensAt(t, p, q, u, n) && OpensAt(t, q, r, v, m) && r != q
    requires Edge(DependsOn(t'.tasks), TaskId(q, n), v) && forall x :: x != q ==> Last(t'.last, x) == Last(t.last, x)
    ensures Opens(t', p, r)
  {
    hide TaskId;
    hide Reaches;
    hide Edge;
    var g' := DependsOn(t'.tasks);
    ReachStays(t, t', u, TaskId(q, n));
    ReachStays(t, t', v, TaskId(r, m));
    StepThenReaches(g', TaskId(q, n), v, TaskId(r, m));
    ReachesThrough(g', u, TaskId(q, n), TaskId(r, m));
    assert OpensAt(t', p, r, u, m);
  }

  /** Handing out ids along a cycle of projects closes a cycle of rows. */
  lemma {:induction false} CycleCloses(t: Table, w: seq<string>) returns (run: seq<Event>)
    requires Issued(t) && OpenCycle(t, w)
    ensures CheckedRun(t, run) && !Acyclic(DependsOn(WriteAll(t, run).tasks))
    decreases |w|
  {
    hide TaskId;
    hide Issued;
    hide OpensAt;
    hide CheckedRun;
    hide WriteAll;
    hide Reaches;
    hide Keeps;
    hide Acyclic;
    hide Edge;
    var p, q := w[0], w[1];
    assert Opens(t, w[0], w[1]);
    var u, n :| OpensAt(t, p, q, u, n);
    if |w| == 2 {
      run := LastFulfilled(t, p, u, n);
    } else {
      var r := w[2];
      assert Opens(t, w[1], w[2]);
      var v, m :| OpensAt(t, q, r, v, m);
      OpenerIsRow(t, q, r, v, m);
      OpenerIsRow(t, p, q, u, n);
      var first := Fulfil(t, q, n, v);
      var t' := WriteAll(t, first);
      assert w[1..][0] == q && w[1..][1] == r;
      OpensFurther(t, t', p, q, r, u, n, v, m);
      var w' := [p] + w[2..];
      ShorterCycle(t, t', w);
      var rest := CycleCloses(t', w');
      run := first + rest;
      Concatenated(t, first, rest);
    }
  }

  lemma OpenerIsRow(t: Table, p: string, q: string, u: string, n: nat)
    requires OpensAt(t, p, q, u, n)
    ensures u in t.tasks && t.tasks[u].project == p && n > Last(t.last, q)
  {
  }

  lemma ShorterCycle(t: Table, t': Table, w: seq<string>)
    requires OpenCycle(t, w) && |w| > 2 && Keeps(t, t') && Opens(t', w[0], w[2])
    requires forall x :: x != w[1] ==> Last(t'.last, x) == Last(t.last, x)
    ensures OpenCycle(t', [w[0]] + w[2..])
  {
    hide Opens;
    hide Keeps;
    var w' := [w[0]] + w[2..];
    assert w'[1..] == w[1..][1..];
    forall i: nat | i + 1 < |w'| ensures Opens(t', w'[i], w'[i + 1]) {
      if i > 0 {
        assert w[1..][0] == w[1] && w[1..][i + 1] == w[i + 2];
        assert Opens(t, w[i + 1], w[i + 1 + 1]);
        StaysOpen(t, t', w[1], w[i + 1], w[i + 2]);
      }
    }
  }

  lemma LastFulfilled(t: Table, q: string, u: string, n: nat) returns (run: seq<Event>)
    requires Issued(t) && OpensAt(t, q, q, u, n)
    ensures CheckedRun(t, run) && !Acyclic(DependsOn(WriteAll(t, run).tasks))
  {
    hide TaskId;
    hide Issued;
    hide Reaches;
    hide Acyclic;
    hide WriteAll;
    hide CheckedRun;
    run := Fulfil(t, q, n, u);
    ReachStays(t, WriteAll(t, run), u, TaskId(q, n));
    CycleEdgeRefutesAcyclic(DependsOn(WriteAll(t, run).tasks), TaskId(q, n), u);
  }

  /** Exactly when no run of inserts, imports, unforced approvals and lifecycle changes closes a cycle, whatever
      references to future ids earlier forced approvals have left: when no project, through its rows, waits in the
      end for an id that it is itself still to hand out. */
  lemma SafeIff(t: Table)
    requires Loose(t)
    ensures Acyclic(ProjectGraph(t)) <==> forall run :: CheckedRun(t, run) ==> Acyclic(DependsOn(WriteAll(t, run).tasks))
  {
    hide Issued;
    hide Opens;
    hide ProjectGraph;
    hide CheckedRun;
    hide WriteAll;
    var h := ProjectGraph(t);
    forall p, q ensures Edge(h, p, q) <==> Opens(t, p, q) { ProjectEdges(t, p, q); }
    if Acyclic(h) {
      hide Acyclic;
      var rank := AcyclicHasRank(h);
      assert Settles(t, rank);
      forall run | CheckedRun(t, run) ensures Acyclic(DependsOn(WriteAll(t, run).tasks)) {
        SettledStaysAcyclic(t, run, rank);
      }
    } else {
      var w: seq<string> :| |w| >= 2 && Walk(h, w) && w[0] == w[|w| - 1];
      var c := SimpleCycle(h, w);
      forall i: nat | i + 1 < |c| ensures Opens(t, c[i], c[i + 1]) { assert Edge(h, c[i + 1 - 1], c[i + 1]); }
      hide Acyclic;
      var run := CycleCloses(t, c);
    }
  }

  /** An anchored table is safe: its projects open nothing. */
  lemma AnchoredIsSafe(t: Table)
    requires Anchored(t)
    ensures forall p, q :: !Opens(t, p, q)
  {
    hide TaskId;
    hide Acyclic;
    forall p, q ensures !Opens(t, p, q) {
      if u, n :| OpensAt(t, p, q, u, n) {
        var g, id := DependsOn(t.tasks), TaskId(q, n);
        NextIdIsFresh(t, q, n);
        LeadsIffReaches(g, u, id);
        OnlyItselfLeadsToUnissued(t, u, id);
      }
    }
  }
}

/** Proposal linting: the local dependency graph and its iterative depth-first search. */
module Proposals {
  import opened Digraph
  import opened Texts

  /** A proposed task. An empty id means that the task has no proposal-local id;
      lint holds whatever the textual boundary checks report about the task. */
  datatype Spec = Spec(id: string, project: string, title: string, objective: string,
                       acceptance: seq<string>, priority: int, budget: int,
                       deps: seq<string>, lint: seq<string>)

  datatype Finding =
    | Ambiguous(ref: string)
    | Unknown(index: nat, dep: string)
    | NoMachineCheck(index: nat)
    | Text(index: nat, text: string)
    | Cycle(from: nat, to: nat)

  /** Some non-blank prefix-stripped criterion starts with '$'. */
  predicate StartsWithDollar(criterion: string) {
    criterion != "" && (criterion[0] == '$'
                        || (IsSpace(criterion[0]) && StartsWithDollar(criterion[1..])))
  }

  lemma {:induction false} DollarComesFirst(criterion: string)
    ensures StartsWithDollar(criterion) <==>
              exists k :: 0 <= k < |criterion| && criterion[k] == '$' && forall j :: 0 <= j < k ==> IsSpace(criterion[j])
    decreases |criterion|
  {
    hide IsSpace;
    if criterion != "" && criterion[0] != '$' {
      DollarComesFirst(criterion[1..]);
      if k :| 0 <= k < |criterion[1..]| && criterion[1..][k] == '$' && forall j :: 0 <= j < k ==> IsSpace(criterion[1..][j]) {
        if IsSpace(criterion[0]) {
          assert criterion[k + 1] == '$' && forall j :: 0 <= j < k + 1 ==> IsSpace(criterion[j]) by {
            assert forall j :: 0 < j < k + 1 ==> criterion[j] == criterion[1..][j - 1];
          }
        }
      }
      if k :| 0 <= k < |criterion| && criterion[k] == '$' && forall j :: 0 <= j < k ==> IsSpace(criterion[j]) {
        assert criterion[1..][k - 1] == '$' && forall j :: 0 <= j < k - 1 ==> IsSpace(criterion[1..][j]) by {
          assert forall j :: 0 <= j < k - 1 ==> criterion[1..][j] == criterion[j + 1];
        }
      }
    }
  }

  predicate MachineCheckable(spec: Spec) {
    exists c :: c in spec.acceptance && StartsWithDollar(c)
  }

  /** Local ids and the position they resolve to: the last task carrying the id. */
  function LocalIndex(specs: seq<Spec>): (local: map<string, nat>)
    ensures forall ref :: ref in local ==> local[ref] < |specs| && specs[local[ref]].id == ref != ""
    ensures forall i :: 0 <= i < |specs| && specs[i].id != "" ==> specs[i].id in local && i <= local[specs[i].id]
  {
    if specs == [] then map[]
    else
      var n := |specs| - 1;
      var before := LocalIndex(specs[..n]);
      if specs[n].id != "" then before[specs[n].id := n] else before
  }

  function Successors(local: map<string, nat>, deps: seq<string>): (succ: seq<nat>)
    ensures forall v :: v in succ <==> exists d :: d in deps && d in local && local[d] == v
  {
    if deps == [] then []
    else
      var n := |deps| - 1;
      var succ := Successors(local, deps[..n]);
      assert deps == deps[..n] + [deps[n]];
      if deps[n] in local then succ + [local[deps[n]]] else succ
  }

  ghost function LocalGraph(specs: seq<Spec>): Graph<nat> {
    map i: nat | i < |specs| :: Successors(LocalIndex(specs), specs[i].deps)
  }

  predicate SharedId(specs: seq<Spec>, existing: set<string>, ref: string) {
    ref != "" && exists i :: 0 <= i < |specs| && specs[i].id == ref
                             && (ref in existing || exists j :: 0 <= j < i && specs[j].id == ref)
  }

  predicate Unresolved(specs: seq<Spec>, existing: set<string>, i: nat, dep: string)
    requires i < |specs|
  {
    dep in specs[i].deps && dep !in LocalIndex(specs) && dep !in existing
  }

  /** What a proposal without findings looks like. */
  ghost predicate Clean(specs: seq<Spec>, existing: set<string>) {
    && (forall ref {:trigger SharedId(specs, existing, ref)} :: !SharedId(specs, existing, ref))
    && (forall i: nat, dep {:trigger Unresolved(specs, existing, i, dep)} ::
          i < |specs| ==> !Unresolved(specs, existing, i, dep))
    && (forall i {:trigger specs[i]} :: 0 <= i < |specs| ==> MachineCheckable(specs[i]) && specs[i].lint == [])
    && Acyclic(LocalGraph(specs))
  }

  // --- the depth-first search -------------------------------------------------

  ghost predicate Closed(succ: seq<seq<nat>>) {
    forall i :: 0 <= i < |succ| ==> forall v :: v in succ[i] ==> v < |succ|
  }

  ghost function AsGraph(succ: seq<seq<nat>>): Graph<nat> {
    map i: nat | i < |succ| :: succ[i]
  }

  type Stack = seq<(nat, bool)>

  /** stack[i] is the exit marker of the node whose expansion pushed stack[j]. */
  ghost predicate Parent(succ: seq<seq<nat>>, stack: Stack, i: int, j: int) {
    && 0 <= i < j < |stack|
    && stack[i].1 && stack[i].0 < |succ|
    && (forall k :: i < k < j ==> !stack[k].1)
    && stack[j].0 in succ[stack[i].0]
  }

  ghost predicate Pushed(succ: seq<seq<nat>>, stack: Stack, j: int) {
    exists i :: Parent(succ, stack, i, j)
  }

  /** Grey nodes are the exit markers, which spell out the current search path. */
  ghost predicate StackOk(succ: seq<seq<nat>>, colors: seq<int>, stack: Stack) {
    && |colors| == |succ|
    && (forall i :: 0 <= i < |stack| ==> stack[i].0 < |succ|)
    && (forall x: nat :: x < |succ| ==> (colors[x] == 1 <==> (x, true) in stack))
    && (forall i, j :: 0 <= i < j < |stack| && stack[i].1 ==> stack[j].0 != stack[i].0)
    && (forall j {:trigger Pushed(succ, stack, j)} :: 0 < j < |stack| ==> Pushed(succ, stack, j))
  }

  ghost predicate Above(stack: Stack, i: int, v: nat) {
    exists j :: 0 <= i < j < |stack| && stack[j].0 == v
  }

  /** As long as nothing was reported, a grey node's unfinished successors wait above it. */
  ghost predicate Waiting(succ: seq<seq<nat>>, colors: seq<int>, stack: Stack)
    requires StackOk(succ, colors, stack) && Closed(succ)
  {
    forall i, v {:trigger Above(stack, i, v)} ::
      0 <= i < |stack| && stack[i].1 && v in succ[stack[i].0] && colors[v] != 2 ==> Above(stack, i, v)
  }

  /** The finished nodes, numbered in the order they finished. */
  ghost predicate Finished(succ: seq<seq<nat>>, colors: seq<int>, rank: map<nat, nat>) {
    && |colors| == |succ|
    && (forall x: nat :: x in rank <==> (x < |succ| && colors[x] == 2))
    && (forall x: nat :: x in rank ==> rank[x] < |rank|)
  }

  ghost predicate Topological(succ: seq<seq<nat>>, rank: map<nat, nat>) {
    forall x, v :: x in rank && x < |succ| && v in succ[x] ==> v in rank && rank[v] < rank[x]
  }

  ghost function Whites(colors: seq<int>): set<nat> {
    set x: nat | x < |colors| && colors[x] == 0
  }

  lemma {:induction false} MarkerReaches(succ: seq<seq<nat>>, colors: seq<int>, stack: Stack, i: nat, j: nat) returns (p: seq<nat>)
    requires StackOk(succ, colors, stack) && i < j < |stack| && stack[i].1
    ensures Walk(AsGraph(succ), p) && p[0] == stack[i].0 && p[|p| - 1] == stack[j].0
    decreases j
  {
    assert Pushed(succ, stack, j);
    var k :| Parent(succ, stack, k, j);
    assert Edge(AsGraph(succ), stack[k].0, stack[j].0);
    if k == i {
      p := [stack[i].0, stack[j].0];
    } else {
      var q := MarkerReaches(succ, colors, stack, i, k);
      p := q + [stack[j].0];
    }
  }

  lemma GreySuccessorClosesCycle(succ: seq<seq<nat>>, colors: seq<int>, stack: Stack, v: nat)
    requires StackOk(succ, colors, stack) && Closed(succ) && stack != []
    requires v in succ[stack[|stack| - 1].0] && (colors[v] == 1 || v == stack[|stack| - 1].0)
    ensures OnCycle(AsGraph(succ), stack[|stack| - 1].0, v)
  {
    var g, top := AsGraph(succ), |stack| - 1;
    var u := stack[top].0;
    assert Edge(g, u, v);
    if v == u {
      assert Walk(g, [u]);
    } else {
      var i :| 0 <= i < |stack| && stack[i] == (v, true);
      var p := MarkerReaches(succ, colors, stack, i, top);
    }
  }

  lemma PopKeepsStack(succ: seq<seq<nat>>, colors: seq<int>, colors': seq<int>, stack: Stack)
    requires StackOk(succ, colors, stack) && Closed(succ) && stack != []
    requires var top := stack[|stack| - 1];
             colors' == if top.1 then colors[top.0 := 2] else colors
    ensures StackOk(succ, colors', stack[..|stack| - 1])
  {
    var m := |stack| - 1;
    var rest := stack[..m];
    assert stack == rest + [stack[m]];
    forall j | 0 < j < |rest| ensures Pushed(succ, rest, j) {
      assert Pushed(succ, stack, j);
      var i :| Parent(succ, stack, i, j);
      assert Parent(succ, rest, i, j);
    }
  }

  lemma PopKeepsWaiting(succ: seq<seq<nat>>, colors: seq<int>, colors': seq<int>, stack: Stack)
    requires StackOk(succ, colors, stack) && Closed(succ) && stack != []
    requires var top := stack[|stack| - 1];
             && colors' == (if top.1 then colors[top.0 := 2] else colors)
             && (top.1 || colors[top.0] == 2)
    requires StackOk(succ, colors', stack[..|stack| - 1])
    requires Waiting(succ, colors, stack)
    ensures Waiting(succ, colors', stack[..|stack| - 1])
  {
    hide Pushed;
    var rest := stack[..|stack| - 1];
    forall i, v | 0 <= i < |rest| && rest[i].1 && v in succ[rest[i].0] && colors'[v] != 2
      ensures Above(rest, i, v)
    {
      assert Above(stack, i, v);
      var j :| 0 <= i < j < |stack| && stack[j].0 == v;
      assert rest[j].0 == v;
    }
  }

  ghost predicate WhiteSuccessors(succ: seq<seq<nat>>, colors: seq<int>, u: nat, pushes: Stack)
    requires Closed(succ) && u < |succ| == |colors|
  {
    forall k :: 0 <= k < |pushes| ==>
      && !pushes[k].1 && pushes[k].0 in succ[u]
      && pushes[k].0 != u && colors[pushes[k].0] == 0
  }

  predicate Handled(colors: seq<int>, pushes: Stack, v: nat) {
    v < |colors| && (colors[v] == 2 || (v, false) in pushes)
  }

  lemma ExpandKeepsStack(succ: seq<seq<nat>>, colors: seq<int>, base: Stack, u: nat, pushes: Stack)
    requires StackOk(succ, colors, base + [(u, false)]) && Closed(succ) && u < |succ| && colors[u] == 0
    requires WhiteSuccessors(succ, colors, u, pushes)
    ensures StackOk(succ, colors[u := 1], base + [(u, true)] + pushes)
  {
    var before, after, colors', m := base + [(u, false)], base + [(u, true)] + pushes, colors[u := 1], |base|;
    assert forall k :: 0 <= k < m ==> after[k] == before[k] == base[k];
    assert after[m] == (u, true) && before[m] == (u, false);
    assert forall k :: m < k < |after| ==> after[k] == pushes[k - m - 1] && !after[k].1;
    forall j | 0 < j < |after| ensures Pushed(succ, after, j) {
      if j <= m {
        assert Pushed(succ, before, j);
        var i :| Parent(succ, before, i, j);
        assert Parent(succ, after, i, j);
      } else {
        assert Parent(succ, after, m, j);
      }
    }
    forall x: nat | x < |succ| ensures colors'[x] == 1 <==> (x, true) in after {
      if x != u { assert (x, true) in after <==> (x, true) in before; }
    }
  }

  lemma ExpandKeepsWaiting(succ: seq<seq<nat>>, colors: seq<int>, base: Stack, u: nat, pushes: Stack)
    requires StackOk(succ, colors, base + [(u, false)]) && Closed(succ) && u < |succ| && colors[u] == 0
    requires StackOk(succ, colors[u := 1], base + [(u, true)] + pushes)
    requires WhiteSuccessors(succ, colors, u, pushes)
    requires Waiting(succ, colors, base + [(u, false)])
    requires forall v :: v in succ[u] ==> Handled(colors, pushes, v)
    ensures Waiting(succ, colors[u := 1], base + [(u, true)] + pushes)
  {
    hide Pushed;
    var before, after, colors', m := base + [(u, false)], base + [(u, true)] + pushes, colors[u := 1], |base|;
    assert forall k :: m < k < |after| ==> after[k] == pushes[k - m - 1] && !after[k].1;
    forall i, v | 0 <= i < |after| && after[i].1 && v in succ[after[i].0] && colors'[v] != 2
      ensures Above(after, i, v)
    {
      if i < m {
        assert before[i] == after[i];
        assert Above(before, i, v);
        var j :| 0 <= i < j < |before| && before[j].0 == v;
        assert after[j].0 == v;
      } else {
        var k :| 0 <= k < |pushes| && pushes[k] == (v, false);
        assert after[m + 1 + k].0 == v;
      }
    }
  }

  lemma FinishTop(succ: seq<seq<nat>>, colors: seq<int>, stack: Stack, rank: map<nat, nat>)
    requires StackOk(succ, colors, stack) && Finished(succ, colors, rank)
    requires stack != [] && stack[|stack| - 1].1
    ensures var u := stack[|stack| - 1].0;
            colors[u] == 1 && u !in rank && Finished(succ, colors[u := 2], rank[u := |rank|])
  {
    hide Pushed;
    var u := stack[|stack| - 1].0;
    assert (u, true) in stack;
    assert rank[u := |rank|].Keys == rank.Keys + {u};
    assert |rank[u := |rank|]| == |rank| + 1;
  }

  lemma FinishTopInOrder(succ: seq<seq<nat>>, colors: seq<int>, stack: Stack, rank: map<nat, nat>)
    requires StackOk(succ, colors, stack) && Closed(succ) && Finished(succ, colors, rank)
    requires stack != [] && stack[|stack| - 1].1 && stack[|stack| - 1].0 !in rank
    requires Waiting(succ, colors, stack) && Topological(succ, rank)
    ensures Topological(succ, rank[stack[|stack| - 1].0 := |rank|])
  {
    hide Pushed;
    var m := |stack| - 1;
    var u := stack[m].0;
    forall v | v in succ[u] ensures v in rank {
      assert !Above(stack, m, v);
    }
  }

  lemma WhitesShrink(colors: seq<int>, u: nat)
    requires u < |colors| && colors[u] == 0
    ensures |Whites(colors[u := 1])| < |Whites(colors)|
  {
    assert Whites(colors[u := 1]) == Whites(colors) - {u};
    assert u in Whites(colors);
  }

  ghost predicate AllOnCycles(succ: seq<seq<nat>>, found: seq<(nat, nat)>) {
    forall e :: e in found ==> OnCycle(AsGraph(succ), e.0, e.1)
  }

  /** What the search maintains between two pops. */
  ghost predicate SearchOk(succ: seq<seq<nat>>, colors: seq<int>, stack: Stack, rank: map<nat, nat>, found: seq<(nat, nat)>) {
    && Closed(succ) && StackOk(succ, colors, stack) && Finished(succ, colors, rank)
    && (forall x :: 0 <= x < |succ| ==> 0 <= colors[x] <= 2)
    && AllOnCycles(succ, found)
    && (found == [] ==> Waiting(succ, colors, stack) && Topological(succ, rank))
  }

  lemma ExitStep(succ: seq<seq<nat>>, colors: seq<int>, stack: Stack, rank: map<nat, nat>, found: seq<(nat, nat)>)
    requires SearchOk(succ, colors, stack, rank, found)
    requires stack != [] && stack[|stack| - 1].1
    ensures var u := stack[|stack| - 1].0;
            && SearchOk(succ, colors[u := 2], stack[..|stack| - 1], rank[u := |rank|], found)
            && Whites(colors[u := 2]) == Whites(colors)
  {
    var u := stack[|stack| - 1].0;
    FinishTop(succ, colors, stack, rank);
    if found == [] { FinishTopInOrder(succ, colors, stack, rank); }
    PopKeepsStack(succ, colors, colors[u := 2], stack);
    if found == [] { PopKeepsWaiting(succ, colors, colors[u := 2], stack); }
    assert Whites(colors[u := 2]) == Whites(colors);
  }

  lemma SkipStep(succ: seq<seq<nat>>, colors: seq<int>, stack: Stack, rank: map<nat, nat>, found: seq<(nat, nat)>)
    requires SearchOk(succ, colors, stack, rank, found)
    requires stack != [] && !stack[|stack| - 1].1 && colors[stack[|stack| - 1].0] != 0
    ensures SearchOk(succ, colors, stack[..|stack| - 1], rank, found)
  {
    var u := stack[|stack| - 1].0;
    if colors[u] == 1 {
      var i :| 0 <= i < |stack| && stack[i] == (u, true);
      assert false;
    }
    PopKeepsStack(succ, colors, colors, stack);
    if found == [] { PopKeepsWaiting(succ, colors, colors, stack); }
  }

  lemma ExpandStep(succ: seq<seq<nat>>, colors: seq<int>, stack: Stack, rank: map<nat, nat>, found: seq<(nat, nat)>,
                   pushes: Stack, found': seq<(nat, nat)>)
    requires SearchOk(succ, colors, stack, rank, found)
    requires stack != [] && !stack[|stack| - 1].1 && colors[stack[|stack| - 1].0] == 0
    requires var u := stack[|stack| - 1].0;
             && WhiteSuccessors(succ, colors, u, pushes)
             && (found' == [] ==> forall v :: v in succ[u] ==> Handled(colors, pushes, v))
    requires AllOnCycles(succ, found') && (found' == [] ==> found == [])
    ensures var u := stack[|stack| - 1].0;
            && SearchOk(succ, colors[u := 1], stack[..|stack| - 1] + [(u, true)] + pushes, rank, found')
            && |Whites(colors[u := 1])| < |Whites(colors)|
  {
    var u, base := stack[|stack| - 1].0, stack[..|stack| - 1];
    assert stack == base + [(u, false)];
    ExpandKeepsStack(succ, colors, base, u, pushes);
    if found' == [] { ExpandKeepsWaiting(succ, colors, base, u, pushes); }
    WhitesShrink(colors, u);
  }

  /** The edges of a freshly greyed node, last to first: grey targets are reported, white ones pushed. */
  method ScanSuccessors(succ: seq<seq<nat>>, colors: array<int>, node: nat, ghost stack: Stack, ghost was: seq<int>,
                       found: seq<(nat, nat)>)
    returns (pushes: Stack, found': seq<(nat, nat)>)
    requires Closed(succ) && StackOk(succ, was, stack) && stack != [] && AllOnCycles(succ, found)
    requires stack[|stack| - 1].0 == node
    requires forall x :: 0 <= x < |was| ==> 0 <= was[x] <= 2
    requires colors[..] == was[node := 1] && was[node] == 0
    ensures WhiteSuccessors(succ, was, node, pushes)
    ensures AllOnCycles(succ, found') && (found' == [] ==> found == [])
    ensures found' == [] ==> forall v :: v in succ[node] ==> Handled(was, pushes, v)
  {
    pushes, found' := [], found;
    var k := |succ[node]|;
    while k > 0
      invariant 0 <= k <= |succ[node]|
      invariant WhiteSuccessors(succ, was, node, pushes)
      invariant found' == [] ==> forall v :: v in succ[node][k..] ==> Handled(was, pushes, v)
      invariant AllOnCycles(succ, found') && (found' == [] ==> found == [])
    {
      k := k - 1;
      var dep := succ[node][k];
      assert succ[node][k..] == [dep] + succ[node][k + 1..];
      assert dep in succ[node] && colors[dep] == was[node := 1][dep];
      if colors[dep] == 1 {
        GreySuccessorClosesCycle(succ, was, stack, dep);
        found' := found' + [(node, dep)];
      } else if colors[dep] == 0 {
        pushes := pushes + [(dep, false)];
      }
    }
    assert succ[node][0..] == succ[node];
  }

  lemma StackBounds(succ: seq<seq<nat>>, colors: seq<int>, stack: Stack)
    requires StackOk(succ, colors, stack)
    ensures |colors| == |succ| && (forall i :: 0 <= i < |stack| ==> stack[i].0 < |succ|)
    ensures stack == [] ==> forall x :: 0 <= x < |succ| ==> colors[x] != 1
    ensures forall i :: 0 <= i < |stack| && stack[i].1 ==> colors[stack[i].0] == 1
  {
    forall i | 0 <= i < |stack| && stack[i].1 ensures colors[stack[i].0] == 1 {
      assert (stack[i].0, true) in stack;
    }
  }

  /** Everything reachable from start that is still white gets finished. */
  method SearchFrom(succ: seq<seq<nat>>, colors: array<int>, start: nat, found: seq<(nat, nat)>, ghost rank: map<nat, nat>)
    returns (found': seq<(nat, nat)>, ghost rank': map<nat, nat>)
    requires start < |succ| && SearchOk(succ, colors[..], [], rank, found)
    requires forall x :: 0 <= x < start ==> colors[x] == 2
    modifies colors
    ensures SearchOk(succ, colors[..], [], rank', found')
    ensures forall x :: 0 <= x <= start ==> colors[x] == 2
  {
    found', rank' := found, rank;
    var stack: Stack := [(start, false)];
    ghost var now := colors[..];
    StackBounds(succ, now, []);
    assert SearchOk(succ, now, stack, rank', found');
    hide Closed;
    hide StackOk;
    hide Finished;
    hide Waiting;
    hide Topological;
    hide AllOnCycles;
    hide Whites;
    hide WhiteSuccessors;
    hide Handled;
    while stack != []
      invariant now == colors[..]
      invariant SearchOk(succ, now, stack, rank', found')
      invariant forall x :: 0 <= x < start ==> now[x] == 2
      invariant now[start] != 0 || stack == [(start, false)]
      decreases |Whites(now)|, |stack|
    {
      ghost var before := stack;
      StackBounds(succ, now, before);
      var (node, exiting) := stack[|stack| - 1];
      stack := stack[..|stack| - 1];
      if exiting {
        ExitStep(succ, now, before, rank', found');
        colors[node] := 2;
        rank' := rank'[node := |rank'|];
        now := now[node := 2];
      } else if colors[node] == 0 {
        colors[node] := 1;
        var pushes, more := ScanSuccessors(succ, colors, node, before, now, found');
        ExpandStep(succ, now, before, rank', found', pushes, more);
        stack, found' := stack + [(node, true)] + pushes, more;
        now := now[node := 1];
      } else {
        SkipStep(succ, now, before, rank', found');
      }
    }
    StackBounds(succ, now, stack);
  }

  /** The iterative three-colour search. It reports an edge exactly when the graph
      has a directed cycle, and every reported edge closes one. */
  method DependencyCycles(succ: seq<seq<nat>>) returns (found: seq<(nat, nat)>)
    requires Closed(succ)
    ensures forall e :: e in found ==> OnCycle(AsGraph(succ), e.0, e.1)
    ensures found == [] <==> Acyclic(AsGraph(succ))
  {
    var colors := new int[|succ|](_ => 0);
    found := [];
    ghost var rank: map<nat, nat> := map[];
    for start := 0 to |succ|
      invariant SearchOk(succ, colors[..], [], rank, found)
      invariant forall x :: 0 <= x < start ==> colors[x] == 2
    {
      found, rank := SearchFrom(succ, colors, start, found, rank);
    }
    if found == [] {
      RankedIsAcyclic(AsGraph(succ), x => if x in rank then rank[x] else 0);
    } else {
      CycleEdgeRefutesAcyclic(AsGraph(succ), found[0].0, found[0].1);
    }
  }

  // --- the whole check ----------------------------------------------------------

  method AmbiguousIds(specs: seq<Spec>, existing: set<string>) returns (findings: seq<Finding>)
    ensures forall f :: f in findings <==> f.Ambiguous? && SharedId(specs, existing, f.ref)
  {
    findings := [];
    var seen: set<string> := {};
    for i := 0 to |specs|
      invariant forall ref :: ref in seen <==> ref != "" && exists j :: 0 <= j < i && specs[j].id == ref
      invariant forall f :: f in findings <==> f.Ambiguous? && SharedId(specs[..i], existing, f.ref)
    {
      var ref := specs[i].id;
      assert specs[..i + 1] == specs[..i] + [specs[i]];
      SharedIdGrows(specs, existing, i);
      if ref != "" {
        if ref in seen || ref in existing {
          findings := findings + [Ambiguous(ref)];
        }
        seen := seen + {ref};
      }
    }
    assert specs[..|specs|] == specs;
  }

  lemma SharedIdGrows(specs: seq<Spec>, existing: set<string>, i: nat)
    requires i < |specs|
    ensures forall ref {:trigger SharedId(specs[..i + 1], existing, ref)} :: SharedId(specs[..i + 1], existing, ref) <==>
              SharedId(specs[..i], existing, ref) || Repeats(specs, existing, i, ref)
  {
    var before, after := specs[..i], specs[..i + 1];
    forall ref | SharedId(before, existing, ref) || Repeats(specs, existing, i, ref)
      ensures SharedId(after, existing, ref)
    {
      var k :| 0 <= k <= i && after[k].id == ref && (ref in existing || exists j :: 0 <= j < k && specs[j].id == ref);
      if ref !in existing {
        var j :| 0 <= j < k && specs[j].id == ref;
        assert after[j].id == ref;
      }
    }
    forall ref | SharedId(after, existing, ref)
      ensures SharedId(before, existing, ref) || Repeats(specs, existing, i, ref)
    {
      var k :| 0 <= k < |after| && after[k].id == ref && (ref in existing || exists j :: 0 <= j < k && after[j].id == ref);
      if ref !in existing {
        var j :| 0 <= j < k && after[j].id == ref;
        assert specs[j].id == ref && (k < i ==> before[j].id == ref);
      }
      assert k < i ==> before[k].id == ref;
    }
  }

  predicate Repeats(specs: seq<Spec>, existing: set<string>, i: nat, ref: string)
    requires i < |specs|
  {
    ref != "" && ref == specs[i].id && (ref in existing || exists j :: 0 <= j < i && specs[j].id == ref)
  }

  /** The findings about one task other than ambiguity and cycles. */
  predicate TaskFinding(specs: seq<Spec>, existing: set<string>, f: Finding) {
    match f
    case Unknown(i, dep) => i < |specs| && Unresolved(specs, existing, i, dep)
    case NoMachineCheck(i) => i < |specs| && !MachineCheckable(specs[i])
    case Text(i, text) => i < |specs| && text in specs[i].lint
    case _ => false
  }

  lemma SuccessorsNext(local: map<string, nat>, deps: seq<string>, k: nat)
    requires k < |deps|
    ensures Successors(local, deps[..k + 1]) == Successors(local, deps[..k]) + if deps[k] in local then [local[deps[k]]] else []
    ensures deps[..k + 1] == deps[..k] + [deps[k]]
  {
    assert deps[..k + 1][..k] == deps[..k];
  }

  /** Resolves one task's references, and lists what is wrong with the task. */
  method ScanTask(specs: seq<Spec>, existing: set<string>, local: map<string, nat>, i: nat)
    returns (succ: seq<nat>, findings: seq<Finding>)
    requires i < |specs| && local == LocalIndex(specs)
    ensures succ == Successors(local, specs[i].deps)
    ensures forall f :: f in findings <==> TaskFinding(specs, existing, f) && f.index == i
  {
    hide LocalIndex;
    hide Successors;
    hide MachineCheckable;
    succ, findings := [], [];
    var deps := specs[i].deps;
    assert deps[..0] == [] && Successors(local, []) == [] by { NoSuccessors(local); }
    for k := 0 to |deps|
      invariant succ == Successors(local, deps[..k])
      invariant forall f :: f in findings <==>
                  f.Unknown? && f.index == i && f.dep in deps[..k] && Unresolved(specs, existing, i, f.dep)
    {
      var dep := deps[k];
      SuccessorsNext(local, deps, k);
      if dep in local {
        succ := succ + [local[dep]];
      } else if dep !in existing {
        findings := findings + [Unknown(i, dep)];
      }
    }
    assert deps[..|deps|] == deps;
    if !MachineCheckable(specs[i]) {
      findings := findings + [NoMachineCheck(i)];
    }
    ghost var soFar := findings;
    for k := 0 to |specs[i].lint|
      invariant forall f :: f in findings <==> f in soFar || (f.Text? && f.index == i && f.text in specs[i].lint[..k])
    {
      assert specs[i].lint[..k + 1] == specs[i].lint[..k] + [specs[i].lint[k]];
      findings := findings + [Text(i, specs[i].lint[k])];
    }
    assert specs[i].lint[..|specs[i].lint|] == specs[i].lint;
  }

  lemma NoSuccessors(local: map<string, nat>)
    ensures Successors(local, []) == []
  {
  }

  lemma SearchedGraphIsLocalGraph(specs: seq<Spec>, graph: seq<seq<nat>>)
    requires |graph| == |specs|
    requires forall i :: 0 <= i < |specs| ==> graph[i] == Successors(LocalIndex(specs), specs[i].deps)
    ensures Closed(graph) && AsGraph(graph) == LocalGraph(specs)
  {
  }

  /** Findings that depend on ids, references and criteria rather than on the search. */
  predicate PlainFinding(specs: seq<Spec>, existing: set<string>, f: Finding) {
    (f.Ambiguous? && SharedId(specs, existing, f.ref)) || TaskFinding(specs, existing, f)
  }

  /** Every finding the proposal deserves and no other; there is none exactly for a clean proposal. */
  method CheckProposal(specs: seq<Spec>, existing: set<string>) returns (findings: seq<Finding>)
    ensures forall f :: f in findings && !f.Cycle? <==> PlainFinding(specs, existing, f)
    ensures forall f :: f in findings && f.Cycle? ==> OnCycle(LocalGraph(specs), f.from, f.to)
    ensures (exists f :: f in findings && f.Cycle?) <==> !Acyclic(LocalGraph(specs))
    ensures findings == [] <==> Clean(specs, existing)
  {
    hide Acyclic;
    hide OnCycle;
    hide MachineCheckable;
    hide Clean;
    hide SharedId;
    hide Unresolved;
    hide LocalGraph;
    hide Successors;
    var local: map<string, nat> := map[];
    for i := 0 to |specs|
      invariant local == LocalIndex(specs[..i])
    {
      assert specs[..i + 1][..i] == specs[..i];
      if specs[i].id != "" { local := local[specs[i].id := i]; }
    }
    assert specs[..|specs|] == specs;
    hide LocalIndex;
    var ambiguous := AmbiguousIds(specs, existing);
    var tasks: seq<Finding> := [];
    var graph: seq<seq<nat>> := seq(|specs|, _ => []);
    for i := 0 to |specs|
      invariant |graph| == |specs|
      invariant forall k :: 0 <= k < i ==> graph[k] == Successors(local, specs[k].deps)
      invariant forall f :: f in tasks <==> TaskFinding(specs, existing, f) && f.index < i
    {
      var succ, more := ScanTask(specs, existing, local, i);
      graph := graph[i := succ];
      tasks := tasks + more;
    }
    SearchedGraphIsLocalGraph(specs, graph);
    var edges := DependencyCycles(graph);
    var cycles: seq<Finding> := [];
    for i := 0 to |edges|
      invariant forall f :: f in cycles ==> f.Cycle? && OnCycle(LocalGraph(specs), f.from, f.to)
      invariant |cycles| == i
    {
      cycles := cycles + [Cycle(edges[i].0, edges[i].1)];
    }
    findings := ambiguous + tasks + cycles;
    assert cycles != [] ==> cycles[0] in findings && cycles[0].Cycle?;
    CleanIffNoFindings(specs, existing, findings);
  }

  lemma UncleanHasFinding(specs: seq<Spec>, existing: set<string>) returns (f: Finding)
    requires !Clean(specs, existing) && Acyclic(LocalGraph(specs))
    ensures PlainFinding(specs, existing, f)
  {
    if ref :| SharedId(specs, existing, ref) {
      f := Ambiguous(ref);
    } else if i: nat, dep :| i < |specs| && Unresolved(specs, existing, i, dep) {
      f := Unknown(i, dep);
    } else {
      var i: nat :| i < |specs| && (!MachineCheckable(specs[i]) || specs[i].lint != []);
      f := if MachineCheckable(specs[i]) then Text(i, specs[i].lint[0]) else NoMachineCheck(i);
    }
  }

  lemma CleanHasNoFinding(specs: seq<Spec>, existing: set<string>, f: Finding)
    requires Clean(specs, existing)
    ensures !PlainFinding(specs, existing, f)
  {
    match f
    case Ambiguous(ref) => assert !SharedId(specs, existing, ref);
    case Unknown(i, dep) => if i < |specs| { assert !Unresolved(specs, existing, i, dep); }
    case NoMachineCheck(i) => if i < |specs| { assert MachineCheckable(specs[i]); }
    case Text(i, text) => if i < |specs| { assert specs[i].lint == []; }
    case _ =>
  }

  lemma CleanIffNoFindings(specs: seq<Spec>, existing: set<string>, findings: seq<Finding>)
    requires forall f :: f in findings && !f.Cycle? <==> PlainFinding(specs, existing, f)
    requires (exists f :: f in findings && f.Cycle?) <==> !Acyclic(LocalGraph(specs))
    ensures findings == [] <==> Clean(specs, existing)
  {
    if findings != [] {
      if Clean(specs, existing) {
        CleanHasNoFinding(specs, existing, findings[0]);
      }
    } else if !Clean(specs, existing) {
      var f := UncleanHasFinding(specs, existing);
    }
  }
}

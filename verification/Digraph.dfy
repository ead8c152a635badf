/** Finite directed graphs given by successor lists, shared by the proposal check and the task table. */
module Digraph {
  type Graph<V> = map<V, seq<V>>

  predicate Edge<V(==)>(g: Graph<V>, u: V, v: V) {
    u in g && v in g[u]
  }

  ghost predicate Walk<V>(g: Graph<V>, p: seq<V>) {
    p != [] && forall i :: 0 < i < |p| ==> Edge(g, p[i - 1], p[i])
  }

  /** No walk of one step or more comes back to where it started. */
  ghost predicate Acyclic<V(!new)>(g: Graph<V>) {
    forall p: seq<V> :: |p| >= 2 && Walk(g, p) ==> p[0] != p[|p| - 1]
  }

  ghost predicate Reaches<V(!new)>(g: Graph<V>, u: V, v: V) {
    exists p: seq<V> :: Walk(g, p) && p[0] == u && p[|p| - 1] == v
  }

  /** The edge from u to v lies on a directed cycle. */
  ghost predicate OnCycle<V(!new)>(g: Graph<V>, u: V, v: V) {
    Edge(g, u, v) && Reaches(g, v, u)
  }

  ghost predicate Ranked<V(!new)>(g: Graph<V>, rank: V -> nat) {
    forall u, v :: Edge(g, u, v) ==> rank(v) < rank(u)
  }

  lemma {:induction false} RankFallsAlongWalk<V(!new)>(g: Graph<V>, rank: V -> nat, p: seq<V>)
    requires Ranked(g, rank) && Walk(g, p)
    ensures rank(p[|p| - 1]) + |p| <= rank(p[0]) + 1
    decreases |p|
  {
    if |p| > 1 {
      var q := p[..|p| - 1];
      assert Walk(g, q);
      RankFallsAlongWalk(g, rank, q);
      assert Edge(g, p[|p| - 2], p[|p| - 1]);
    }
  }

  lemma RankedIsAcyclic<V(!new)>(g: Graph<V>, rank: V -> nat)
    requires Ranked(g, rank)
    ensures Acyclic(g)
  {
    forall p: seq<V> | |p| >= 2 && Walk(g, p)
      ensures p[0] != p[|p| - 1]
    {
      RankFallsAlongWalk(g, rank, p);
    }
  }

  lemma CycleEdgeRefutesAcyclic<V(!new)>(g: Graph<V>, u: V, v: V)
    requires OnCycle(g, u, v)
    ensures !Acyclic(g)
  {
    var p :| Walk(g, p) && p[0] == v && p[|p| - 1] == u;
    var q := [u] + p;
    assert forall i :: 0 < i < |q| ==> q[i] == p[i - 1];
    assert Walk(g, q);
    assert q[0] == q[|q| - 1];
  }

  // An acyclic finite graph has a rank: some node has no successor inside the
  // graph (otherwise walks of any length exist and one of them repeats a node).

  lemma {:induction false} DistinctWithinSet<V>(p: seq<V>, s: set<V>)
    requires forall i :: 0 <= i < |p| ==> p[i] in s
    requires forall i, j :: 0 <= i < j < |p| ==> p[i] != p[j]
    ensures |p| <= |s|
    decreases |p|
  {
    if p != [] {
      DistinctWithinSet(p[1..], s - {p[0]});
    }
  }

  lemma WalksAreShort<V(!new)>(g: Graph<V>, p: seq<V>)
    requires Acyclic(g) && Walk(g, p)
    requires forall i :: 0 <= i < |p| ==> p[i] in g
    ensures |p| <= |g|
  {
    forall i, j | 0 <= i < j < |p|
      ensures p[i] != p[j]
    {
      var q := p[i..j + 1];
      assert Walk(g, q);
      assert q[0] == p[i] && q[|q| - 1] == p[j];
    }
    DistinctWithinSet(p, g.Keys);
  }

  ghost predicate Continues<V(!new)>(g: Graph<V>, u: V) {
    exists v :: v in g && Edge(g, u, v)
  }

  lemma {:induction false} LongWalk<V(!new)>(g: Graph<V>, n: nat) returns (p: seq<V>)
    requires g != map[]
    requires forall u {:trigger Continues(g, u)} :: u in g ==> Continues(g, u)
    ensures |p| == n + 1 && Walk(g, p) && forall i :: 0 <= i < |p| ==> p[i] in g
  {
    if n == 0 {
      var u :| u in g;
      p := [u];
    } else {
      var q := LongWalk(g, n - 1);
      assert Continues(g, q[|q| - 1]);
      var v :| v in g && Edge(g, q[|q| - 1], v);
      p := q + [v];
    }
  }

  lemma Sink<V(!new)>(g: Graph<V>) returns (s: V)
    requires Acyclic(g) && g != map[]
    ensures s in g && forall v :: v in g ==> !Edge(g, s, v)
  {
    if forall u {:trigger Continues(g, u)} :: u in g ==> Continues(g, u) {
      var p := LongWalk(g, |g|);
      WalksAreShort(g, p);
      assert false;
    }
    s :| s in g && !Continues(g, s);
  }

  lemma {:induction false} AcyclicHasRank<V(!new)>(g: Graph<V>) returns (rank: V -> nat)
    requires Acyclic(g)
    ensures Ranked(g, rank)
    decreases |g|
  {
    if g == map[] {
      rank := _ => 0;
    } else {
      var s := Sink(g);
      var h := g - {s};
      assert |h.Keys| == |g.Keys - {s}|;
      forall p: seq<V> | |p| >= 2 && Walk(h, p)
        ensures p[0] != p[|p| - 1]
      {
        forall i | 0 < i < |p| ensures Edge(g, p[i - 1], p[i]) { assert Edge(h, p[i - 1], p[i]); }
        assert Walk(g, p);
      }
      var r := AcyclicHasRank(h);
      rank := v => if v !in g then 0 else if v == s then 1 else r(v) + 2;
      forall u, v | Edge(g, u, v)
        ensures rank(v) < rank(u)
      {
        if u != s && v in h { assert Edge(h, u, v); }
      }
    }
  }

  lemma AcyclicIffRanked<V(!new)>(g: Graph<V>)
    ensures Acyclic(g) <==> exists rank: V -> nat :: Ranked(g, rank)
  {
    if Acyclic(g) {
      var rank := AcyclicHasRank(g);
    }
    if rank: V -> nat :| Ranked(g, rank) {
      RankedIsAcyclic(g, rank);
    }
  }

  // Adding a batch of new nodes below which only the batch and old nodes hang.

  ghost predicate Distinct<V>(ids: seq<V>) {
    forall i, j :: 0 <= i < j < |ids| ==> ids[i] != ids[j]
  }

  /** The edges of g' are those of g, the edges of h carried over to the new nodes ids,
      and edges from new nodes to the old nodes s. */
  ghost predicate Extends<V(!new)>(g: Graph<V>, g': Graph<V>, h: Graph<nat>, ids: seq<V>, s: set<V>) {
    && (forall u, v :: Edge(g', u, v) && u !in ids ==> Edge(g, u, v) && v !in ids)
    && (forall i: nat, j: nat :: i < |ids| && j < |ids| && Edge(g', ids[i], ids[j]) ==> Edge(h, i, j))
    && (forall u, v :: Edge(g', u, v) && u in ids && v !in ids ==> v in s)
  }

  lemma {:induction false} RankBound<V(!new)>(s: set<V>, rank: V -> nat) returns (top: nat)
    ensures forall v :: v in s ==> rank(v) <= top
    decreases s
  {
    top := 0;
    if s != {} {
      var v :| v in s;
      var rest := RankBound(s - {v}, rank);
      top := if rest < rank(v) then rank(v) else rest;
    }
  }

  ghost function IndexOf<V>(ids: seq<V>, id: V): (i: nat)
    ensures id in ids ==> i < |ids| && ids[i] == id
  {
    if id in ids then
      var i: nat :| i < |ids| && ids[i] == id;
      i
    else 0
  }

  lemma ExtensionIsAcyclic<V(!new)>(g: Graph<V>, g': Graph<V>, h: Graph<nat>, ids: seq<V>, s: set<V>)
    requires Acyclic(g) && Acyclic(h) && Distinct(ids) && Extends(g, g', h, ids, s)
    ensures Acyclic(g')
  {
    var before := AcyclicHasRank(g);
    var inside := AcyclicHasRank(h);
    var top := RankBound(s, before);
    // New nodes rank above all old ones, among themselves as in h.
    var rank := (v: V) => if v in ids then top + 1 + inside(IndexOf(ids, v)) else before(v);
    forall u, v | Edge(g', u, v)
      ensures rank(v) < rank(u)
    {
      if u in ids && v in ids {
        var i, j := IndexOf(ids, u), IndexOf(ids, v);
        assert Edge(g', ids[i], ids[j]);
      }
    }
    RankedIsAcyclic(g', rank);
  }

  // Reachability as a bounded search. On an acyclic graph no walk is longer than the graph.

  predicate Within<V(==)>(g: Graph<V>, u: V, v: V, n: nat) {
    u == v || (n > 0 && u in g && exists w :: w in g[u] && Within(g, w, v, n - 1))
  }

  predicate Leads<V(==)>(g: Graph<V>, u: V, v: V) {
    Within(g, u, v, |g|)
  }

  lemma ReachesSelf<V(!new)>(g: Graph<V>, u: V)
    ensures Reaches(g, u, u)
  {
    assert Walk(g, [u]) && [u][0] == u && [u][|[u]| - 1] == u;
  }

  lemma StepThenReaches<V(!new)>(g: Graph<V>, u: V, v: V, w: V)
    requires Edge(g, u, v) && Reaches(g, v, w)
    ensures Reaches(g, u, w)
  {
    var p :| Walk(g, p) && p[0] == v && p[|p| - 1] == w;
    var q := [u] + p;
    assert forall i :: 0 < i < |q| ==> q[i] == p[i - 1];
    assert Walk(g, q) && q[0] == u && q[|q| - 1] == w;
  }

  lemma {:induction false} WithinReaches<V(!new)>(g: Graph<V>, u: V, v: V, n: nat)
    requires Within(g, u, v, n)
    ensures Reaches(g, u, v)
  {
    if u == v {
      ReachesSelf(g, u);
    } else {
      var w :| w in g[u] && Within(g, w, v, n - 1);
      WithinReaches(g, w, v, n - 1);
      StepThenReaches(g, u, w, v);
    }
  }

  lemma {:induction false} WalkIsWithin<V(!new)>(g: Graph<V>, p: seq<V>, n: nat)
    requires Walk(g, p) && |p| <= n + 1
    ensures Within(g, p[0], p[|p| - 1], n)
    decreases |p|
  {
    if |p| > 1 {
      assert Edge(g, p[0], p[1]);
      assert Walk(g, p[1..]) by { forall i | 0 < i < |p[1..]| ensures Edge(g, p[1..][i - 1], p[1..][i]) { assert Edge(g, p[i], p[i + 1]); } }
      WalkIsWithin(g, p[1..], n - 1);
    }
  }

  lemma LeadsIffReaches<V(!new)>(g: Graph<V>, u: V, v: V)
    requires Acyclic(g)
    ensures Leads(g, u, v) <==> Reaches(g, u, v)
  {
    if Leads(g, u, v) { WithinReaches(g, u, v, |g|); }
    if p: seq<V> :| Walk(g, p) && p[0] == u && p[|p| - 1] == v {
      if |p| > 1 {
        var q := p[..|p| - 1];
        forall i | 0 <= i < |q| ensures q[i] in g { assert Edge(g, p[i], p[i + 1]); }
        assert Walk(g, q);
        WalksAreShort(g, q);
      }
      WalkIsWithin(g, p, |g|);
    }
  }

  // Adding a batch of new nodes that old nodes may have named beforehand.

  /** g' adds to g the edges of the new nodes ids, which had none, and no others. */
  ghost predicate Grows<V(!new)>(g: Graph<V>, g': Graph<V>, ids: seq<V>) {
    && Distinct(ids)
    && (forall u, v :: u !in ids ==> (Edge(g', u, v) <==> Edge(g, u, v)))
    && (forall u, v :: u in ids ==> !Edge(g, u, v))
  }

  /** A successor of u in g' reaches w along edges of g. */
  ghost predicate Through<V(!new)>(g: Graph<V>, g': Graph<V>, u: V, w: V) {
    exists v :: Edge(g', u, v) && Reaches(g, v, w)
  }

  /** h connects two new nodes when the first comes to the second through old nodes only. */
  ghost predicate Condenses<V(!new)>(g: Graph<V>, g': Graph<V>, ids: seq<V>, h: Graph<nat>) {
    && (forall i: nat, j: nat :: Edge(h, i, j) ==> i < |ids| && j < |ids|)
    && (forall i: nat, j: nat :: i < |ids| && j < |ids| ==> (Edge(h, i, j) <==> Through(g, g', ids[i], ids[j])))
  }

  /** One more than the highest rank of a new node that u reaches, 0 if there is none. */
  ghost function Level<V(!new)>(g: Graph<V>, ids: seq<V>, inside: nat -> nat, u: V, n: nat): (level: nat)
    requires n <= |ids|
    ensures forall j: nat :: j < n && Reaches(g, u, ids[j]) ==> inside(j) < level
    ensures level > 0 ==> exists j: nat :: j < n && Reaches(g, u, ids[j]) && inside(j) + 1 == level
  {
    if n == 0 then 0
    else
      var rest := Level(g, ids, inside, u, n - 1);
      if Reaches(g, u, ids[n - 1]) && rest <= inside(n - 1) then inside(n - 1) + 1 else rest
  }

  lemma LevelOfNew<V(!new)>(g: Graph<V>, g': Graph<V>, ids: seq<V>, inside: nat -> nat, i: nat)
    requires Grows(g, g', ids) && i < |ids|
    ensures Level(g, ids, inside, ids[i], |ids|) == inside(i) + 1
  {
    ReachesSelf(g, ids[i]);
    var level := Level(g, ids, inside, ids[i], |ids|);
    var j: nat :| j < |ids| && Reaches(g, ids[i], ids[j]) && inside(j) + 1 == level;
    var p :| Walk(g, p) && p[0] == ids[i] && p[|p| - 1] == ids[j];
    if |p| > 1 { assert Edge(g, p[0], p[1]); }
  }

  /** Along an edge of g' the level falls, or it does not rise and the edge is one of g. */
  lemma LevelFalls<V(!new)>(g: Graph<V>, g': Graph<V>, ids: seq<V>, h: Graph<nat>, inside: nat -> nat, u: V, v: V)
    requires Grows(g, g', ids) && Condenses(g, g', ids, h) && Ranked(h, inside) && Edge(g', u, v)
    ensures var before, after := Level(g, ids, inside, u, |ids|), Level(g, ids, inside, v, |ids|);
            after < before || (after == before && Edge(g, u, v))
  {
    var before, after := Level(g, ids, inside, u, |ids|), Level(g, ids, inside, v, |ids|);
    if after > 0 {
      var j: nat :| j < |ids| && Reaches(g, v, ids[j]) && inside(j) + 1 == after;
      if u in ids {
        var i: nat :| i < |ids| && ids[i] == u;
        LevelOfNew(g, g', ids, inside, i);
        assert Through(g, g', ids[i], ids[j]);
        assert Edge(h, i, j);
      } else {
        StepThenReaches(g, u, v, ids[j]);
      }
    } else if u in ids {
      var i: nat :| i < |ids| && ids[i] == u;
      LevelOfNew(g, g', ids, inside, i);
    }
  }

  lemma LexicographicFalls(before: nat, after: nat, x: nat, y: nat, top: nat)
    requires y <= top && (after < before || (after == before && y < x))
    ensures after * (top + 1) + y < before * (top + 1) + x
  {
    if after < before {
      assert (after + 1) * (top + 1) <= before * (top + 1);
    }
  }

  ghost function AllTargets<V(!new)>(g: Graph<V>): (s: set<V>)
    ensures forall u, v :: Edge(g, u, v) ==> v in s
  {
    set u, v | u in g && v in g[u] :: v
  }

  ghost function Combined<V(!new)>(g: Graph<V>, ids: seq<V>, inside: nat -> nat, before: V -> nat, top: nat, u: V): nat {
    Level(g, ids, inside, u, |ids|) * (top + 1) + before(u)
  }

  lemma CombinedFalls<V(!new)>(g: Graph<V>, g': Graph<V>, ids: seq<V>, h: Graph<nat>, inside: nat -> nat,
                               before: V -> nat, top: nat, u: V, v: V)
    requires Grows(g, g', ids) && Condenses(g, g', ids, h) && Ranked(h, inside) && Ranked(g, before)
    requires Edge(g', u, v) && before(v) <= top
    ensures Combined(g, ids, inside, before, top, v) < Combined(g, ids, inside, before, top, u)
  {
    LevelFalls(g, g', ids, h, inside, u, v);
    hide Grows;
    hide Condenses;
    LexicographicFalls(Level(g, ids, inside, u, |ids|), Level(g, ids, inside, v, |ids|), before(u), before(v), top);
  }

  lemma CondensedThenWhole<V(!new)>(g: Graph<V>, g': Graph<V>, ids: seq<V>, h: Graph<nat>)
    requires Acyclic(g) && Grows(g, g', ids) && Condenses(g, g', ids, h) && Acyclic(h)
    ensures Acyclic(g')
  {
    hide Acyclic;
    hide Grows;
    hide Condenses;
    hide Combined;
    hide Edge;
    var before := AcyclicHasRank(g);
    var inside := AcyclicHasRank(h);
    var top := RankBound(AllTargets(g'), before);
    var rank := (u: V) => Combined(g, ids, inside, before, top, u);
    forall u, v | Edge(g', u, v) ensures rank(v) < rank(u) {
      CombinedFalls(g, g', ids, h, inside, before, top, u, v);
    }
    RankedIsAcyclic(g', rank);
  }

  lemma ThroughFalls<V(!new)>(g: Graph<V>, g': Graph<V>, ids: seq<V>, rank: V -> nat, u: V, w: V)
    requires Grows(g, g', ids) && Ranked(g', rank) && Through(g, g', u, w)
    ensures rank(w) < rank(u)
  {
    var v :| Edge(g', u, v) && Reaches(g, v, w);
    var p :| Walk(g, p) && p[0] == v && p[|p| - 1] == w;
    forall i | 0 < i < |p| ensures Edge(g', p[i - 1], p[i]) { assert Edge(g, p[i - 1], p[i]); }
    RankFallsAlongWalk(g', rank, p);
  }

  lemma WholeThenCondensed<V(!new)>(g: Graph<V>, g': Graph<V>, ids: seq<V>, h: Graph<nat>)
    requires Grows(g, g', ids) && Condenses(g, g', ids, h) && Acyclic(g')
    ensures Acyclic(h)
  {
    hide Acyclic;
    hide Grows;
    hide Through;
    hide Edge;
    var rank := AcyclicHasRank(g');
    var inside := (i: nat) => if i < |ids| then rank(ids[i]) else 0;
    forall i: nat, j: nat | Edge(h, i, j) ensures inside(j) < inside(i) {
      ThroughFalls(g, g', ids, rank, ids[i], ids[j]);
    }
    RankedIsAcyclic(h, inside);
  }

  /** Whatever the old nodes may have named beforehand: the new graph is acyclic iff the condensed one is. */
  lemma GrowthIsAcyclicIff<V(!new)>(g: Graph<V>, g': Graph<V>, ids: seq<V>, h: Graph<nat>)
    requires Acyclic(g) && Grows(g, g', ids) && Condenses(g, g', ids, h)
    ensures Acyclic(g') <==> Acyclic(h)
  {
    if Acyclic(h) { CondensedThenWhole(g, g', ids, h); }
    if Acyclic(g') { WholeThenCondensed(g, g', ids, h); }
  }
}

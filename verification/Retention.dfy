/** What pruning keeps: the newest manifests of one source, and the blocks anything still mentions. */
module Retention {
  import opened Blocks
  import opened Json
  import opened Manifests
  import opened StoreMachine
  import opened Wrappers

  function Recognised(leaves: map<Leaf, Option<Json>>, source: SourceId): set<Leaf> {
    set l | l in leaves && l.source == source && At(leaves, l).Some?
  }

  /** The recognised leaves of the same source that are newer. */
  function Newer(leaves: map<Leaf, Option<Json>>, l: Leaf): set<Leaf> {
    set k | k in Recognised(leaves, l.source) && k.stamp > l.stamp
  }

  /** Recognised, but with enough newer ones to fill the retention count. */
  predicate Expired(leaves: map<Leaf, Option<Json>>, source: SourceId, retain: nat, l: Leaf) {
    l in Recognised(leaves, source) && |Newer(leaves, l)| >= retain
  }

  function Retained(leaves: map<Leaf, Option<Json>>, source: SourceId, retain: nat): map<Leaf, Option<Json>> {
    map l | l in leaves && !Expired(leaves, source, retain, l) :: leaves[l]
  }

  function Collected(blocks: map<string, Bytes>, leaves: map<Leaf, Option<Json>>): map<string, Bytes> {
    map n | n in blocks && (IsDigest(n) ==> n in Referenced(leaves)) :: blocks[n]
  }

  function Elements(order: seq<Leaf>): set<Leaf> {
    set l | l in order
  }

  lemma {:induction false} SeqAsSet(order: seq<Leaf>)
    requires forall i, j :: 0 <= i < j < |order| ==> order[i] != order[j]
    ensures |Elements(order)| == |order|
    decreases |order|
  {
    if order != [] {
      var n := |order| - 1;
      SeqAsSet(order[..n]);
      assert order == order[..n] + [order[n]];
      assert Elements(order) == Elements(order[..n]) + {order[n]};
    }
  }

  /** Exactly i recognised leaves are newer than the i-th newest one. */
  lemma OrderCounts(leaves: map<Leaf, Option<Json>>, source: SourceId, order: seq<Leaf>, i: nat)
    requires NewestFirst(leaves, source, order) && i < |order|
    ensures order[i] in order && |Newer(leaves, order[i])| == i
  {
    hide At;
    assert order[i] in order;
    forall k | k in order[..i] ensures k in Newer(leaves, order[i]) {
      var j :| 0 <= j < i && order[j] == k;
      assert k in order;
    }
    forall k | k in Newer(leaves, order[i]) ensures k in order[..i] {
      assert k in order;
      var j :| 0 <= j < |order| && order[j] == k;
      assert j < i;
    }
    assert Newer(leaves, order[i]) == Elements(order[..i]);
    SeqAsSet(order[..i]);
  }

  lemma BeyondIsExpired(leaves: map<Leaf, Option<Json>>, source: SourceId, order: seq<Leaf>, retain: nat)
    requires NewestFirst(leaves, source, order)
    ensures forall l :: l in Beyond(order, retain) <==> Expired(leaves, source, retain, l)
  {
    hide At;
    hide Newer;
    forall l | l in Beyond(order, retain) ensures Expired(leaves, source, retain, l) {
      var i :| retain <= i < |order| && order[i] == l;
      OrderCounts(leaves, source, order, i);
    }
    forall l | Expired(leaves, source, retain, l) ensures l in Beyond(order, retain) {
      assert l in order;
      var i :| 0 <= i < |order| && order[i] == l;
      OrderCounts(leaves, source, order, i);
      assert order[retain..][i - retain] == l;
    }
  }

  /** As many survive as the retention allows, and they are the newest ones; leaves of
      other sources and unrecognised leaves are not touched. */
  lemma NewestSurvive(leaves: map<Leaf, Option<Json>>, source: SourceId, order: seq<Leaf>, retain: nat)
    requires NewestFirst(leaves, source, order)
    ensures var kept := Retained(leaves, source, retain);
            && Recognised(kept, source) == Elements(order[..if |order| < retain then |order| else retain])
            && |Recognised(kept, source)| == (if |order| < retain then |order| else retain)
            && |order| == |Recognised(leaves, source)|
            && (forall l :: l in leaves && (l.source != source || At(leaves, l).None?) ==> l in kept && kept[l] == leaves[l])
  {
    hide Decode;
    var n := if |order| < retain then |order| else retain;
    var kept := Retained(leaves, source, retain);
    forall l ensures l in Recognised(kept, source) <==> l in order[..n] {
      assert At(kept, l).Some? <==> At(leaves, l).Some? && !Expired(leaves, source, retain, l);
      if l in Recognised(kept, source) {
        assert l in order;
        var i :| 0 <= i < |order| && order[i] == l;
        OrderCounts(leaves, source, order, i);
        assert order[..n][i] == l;
      }
      if l in order[..n] {
        var i :| 0 <= i < n && order[i] == l;
        OrderCounts(leaves, source, order, i);
      }
    }
    assert Recognised(kept, source) == Elements(order[..n]);
    SeqAsSet(order[..n]);
    assert Recognised(leaves, source) == Elements(order);
    SeqAsSet(order);
  }

  /** In a safe store no referenced block is missing, so what collection leaves behind
      is precisely the union of what the recognised manifests of all sources mention. */
  lemma CollectedIsReferenced(sha: Hash, universe: iset<Bytes>, s: Store)
    requires Inv(sha, universe, s)
    ensures BlockNames(Collected(s.blocks, s.leaves)) == Referenced(s.leaves)
  {
    hide Decode;
    hide Plan;
    hide Entries;
    forall d | d in Referenced(s.leaves) ensures d in s.blocks && IsDigest(d) {
      var l :| l in s.leaves && At(s.leaves, l).Some? && d in Digests(At(s.leaves, l).value);
      assert LeafOk(sha, s, l);
      DigestsArePlan(sha, s.saved[l], At(s.leaves, l).value);
      var p :| p in Plan(s.saved[l]) && sha(p) == d;
      assert Present(sha, s.blocks, p);
    }
  }
}

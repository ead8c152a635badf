/** Safety of the block store over every run, cut off anywhere: what is recognised can be restored exactly. */
module StoreSafety {
  import opened Blocks
  import opened Manifests
  import opened StoreMachine

  lemma LeavesKeepBlocks(sha: Hash, s: Store, s': Store)
    requires forall l {:trigger LeafOk(sha, s, l)} :: l in s.leaves ==> LeafOk(sha, s, l)
    requires s'.leaves == s.leaves && s'.saved == s.saved
    requires forall n :: n in s.blocks && n in Referenced(s.leaves) ==> n in s'.blocks && s'.blocks[n] == s.blocks[n]
    ensures forall l {:trigger LeafOk(sha, s', l)} :: l in s'.leaves ==> LeafOk(sha, s', l)
  {
    hide Decode;
    hide Encode;
    forall l | l in s'.leaves ensures LeafOk(sha, s', l) {
      assert LeafOk(sha, s, l);
      if At(s.leaves, l).Some? {
        var m := At(s.leaves, l).value;
        DigestsArePlan(sha, s.saved[l], m);
        forall p | p in Plan(s.saved[l]) ensures Present(sha, s'.blocks, p) {
          assert Present(sha, s.blocks, p);
          assert sha(p) in Digests(m);
          assert sha(p) in Referenced(s.leaves);
        }
      }
    }
  }

  /** Changing one leaf's contents leaves every other leaf as it was. */
  lemma OtherLeavesOk(sha: Hash, s: Store, s': Store, changed: Leaf)
    requires forall l {:trigger LeafOk(sha, s, l)} :: l in s.leaves ==> LeafOk(sha, s, l)
    requires s'.blocks == s.blocks
    requires forall l :: l in s'.leaves && l != changed ==> l in s.leaves && s'.leaves[l] == s.leaves[l]
    requires forall l :: l in s.saved && l != changed ==> l in s'.saved && s'.saved[l] == s.saved[l]
    ensures forall l {:trigger LeafOk(sha, s', l)} :: l in s'.leaves && l != changed ==> LeafOk(sha, s', l)
  {
    hide Decode;
    hide Encode;
    forall l | l in s'.leaves && l != changed ensures LeafOk(sha, s', l) {
      assert LeafOk(sha, s, l);
    }
  }

  /** Whether it was reused or written, the block now holds the piece itself. */
  lemma PiecePresent(sha: Hash, universe: iset<Bytes>, s: Store, a: Action)
    requires CollisionFree(sha, universe) && Inv(sha, universe, s) && Enabled(sha, s, a) && Within(universe, a)
    requires a.Reuse? || a.Publish?
    ensures Piece(s.phase) in Plan(s.phase.job.stage)
    ensures Do(sha, s, a).phase.Copying? ==> Present(sha, Do(sha, s, a).blocks, Piece(s.phase))
  {
    hide LeafOk;
    hide Plan;
    assert Piece(s.phase) in Plan(s.phase.job.stage);
  }

  lemma ReuseKeepsInv(sha: Hash, universe: iset<Bytes>, s: Store)
    requires CollisionFree(sha, universe) && Inv(sha, universe, s)
    requires Enabled(sha, s, Reuse) && Within(universe, Reuse)
    ensures Inv(sha, universe, Do(sha, s, Reuse))
  {
    hide Decode;
    hide Plan;
    hide LeafOk;
    hide ManifestOf;
    var ph, s' := s.phase, Do(sha, s, Reuse);
    var plan := Plan(ph.job.stage);
    PiecePresent(sha, universe, s, Reuse);
    hide CollisionFree;
    LeavesKeepBlocks(sha, s, s');
    hide Referenced;
    if s'.phase.Copying? {
      OneMorePiece(sha, s.blocks, s'.blocks, plan, ph.done);
    }
  }

  lemma PublishKeepsInv(sha: Hash, universe: iset<Bytes>, s: Store, content: Bytes)
    requires CollisionFree(sha, universe) && Inv(sha, universe, s)
    requires Enabled(sha, s, Publish(content)) && Within(universe, Publish(content))
    ensures Inv(sha, universe, Do(sha, s, Publish(content)))
  {
    hide Decode;
    hide Plan;
    hide LeafOk;
    hide ManifestOf;
    var ph, s' := s.phase, Do(sha, s, Publish(content));
    var plan := Plan(ph.job.stage);
    PiecePresent(sha, universe, s, Publish(content));
    hide CollisionFree;
    LeavesKeepBlocks(sha, s, s');
    hide Referenced;
    if s'.phase.Copying? {
      OneMorePiece(sha, s.blocks, s'.blocks, plan, ph.done);
    }
  }

  lemma OneMorePiece(sha: Hash, blocks: map<string, Bytes>, blocks': map<string, Bytes>, plan: seq<Bytes>, done: nat)
    requires done < |plan| && Present(sha, blocks', plan[done])
    requires forall i :: 0 <= i < done ==> Present(sha, blocks, plan[i])
    requires forall n :: n in blocks ==> n in blocks' && blocks'[n] == blocks[n]
    ensures forall i :: 0 <= i < done + 1 ==> Present(sha, blocks', plan[i])
    ensures Total(plan[..done + 1]) == Total(plan[..done]) + |plan[done]|
  {
    forall i | 0 <= i < done ensures Present(sha, blocks', plan[i]) {
      assert Present(sha, blocks, plan[i]);
    }
    OneMoreTotal(plan, done);
  }

  lemma LeafMade(sha: Hash, universe: iset<Bytes>, s: Store, a: Action)
    requires Inv(sha, universe, s) && Enabled(sha, s, a) && a.MakeLeaf?
    ensures Inv(sha, universe, Do(sha, s, a))
  {
    hide Decode;
    hide Plan;
    hide ManifestOf;
    hide Referenced;
    var ph, s' := s.phase, Do(sha, s, a);
    OtherLeavesOk(sha, s, s', s'.phase.leaf);
    var plan := Plan(ph.job.stage);
    assert plan[..|plan|] == plan;
    assert LeafOk(sha, s', s'.phase.leaf);
    hide LeafOk;
  }

  lemma ManifestPublished(sha: Hash, universe: iset<Bytes>, s: Store, a: Action)
    requires Inv(sha, universe, s) && Enabled(sha, s, a) && a.PutManifest?
    ensures Inv(sha, universe, Do(sha, s, a))
  {
    hide Decode;
    hide Plan;
    hide Encode;
    hide Referenced;
    hide Entries;
    var ph, s' := s.phase, Do(sha, s, a);
    OtherLeavesOk(sha, s, s', ph.leaf);
    WrittenManifestIsRecognised(sha, ph.job, ph.added, ph.reused);
    assert LeafOk(sha, s', ph.leaf);
    hide LeafOk;
  }

  lemma RetentionChosen(sha: Hash, universe: iset<Bytes>, s: Store, a: Action)
    requires Inv(sha, universe, s) && Enabled(sha, s, a) && a.Select?
    ensures Inv(sha, universe, Do(sha, s, a))
  {
    hide Decode;
    hide Encode;
    var ph, s' := s.phase, Do(sha, s, a);
    OtherLeavesOk(sha, s, s', ph.leaf);
    assert LeafOk(sha, s, ph.leaf);
    assert ph.leaf in a.order;
    var k :| 0 <= k < |a.order| && a.order[k] == ph.leaf;
    assert forall i :: 0 < i < |a.order| ==> a.order[i].stamp < a.order[0].stamp;
    assert a.order[0].source == ph.job.source && a.order[0] in a.order;
    assert a.order[0] in s.leaves;
  }

  lemma LeafRemoved(sha: Hash, universe: iset<Bytes>, s: Store, a: Action)
    requires Inv(sha, universe, s) && Enabled(sha, s, a)
    requires a.DropManifest? || a.DropLeaf?
    ensures Inv(sha, universe, Do(sha, s, a))
  {
    hide Decode;
    hide Encode;
    var ph, s' := s.phase, Do(sha, s, a);
    OtherLeavesOk(sha, s, s', ph.doomed[0]);
    assert ph.doomed[0] in ph.doomed && ph.leaf != ph.doomed[0];
    if ph.doomed[0] in s'.leaves { assert LeafOk(sha, s', ph.doomed[0]); }
  }

  lemma BlocksCollected(sha: Hash, universe: iset<Bytes>, s: Store, a: Action)
    requires Inv(sha, universe, s) && Enabled(sha, s, a)
    requires a.Survey? || a.Unlink?
    ensures Inv(sha, universe, Do(sha, s, a))
  {
    hide Decode;
    hide Encode;
    LeavesKeepBlocks(sha, s, Do(sha, s, a));
  }

  /** Every single step keeps the store safe; a cut is the step Abandon. */
  lemma StepKeepsInv(sha: Hash, universe: iset<Bytes>, s: Store, a: Action)
    requires CollisionFree(sha, universe) && Inv(sha, universe, s) && Enabled(sha, s, a) && Within(universe, a)
    ensures Inv(sha, universe, Do(sha, s, a))
  {
    hide At;
    hide Referenced;
    hide ManifestOf;
    match a
    case Reuse => ReuseKeepsInv(sha, universe, s);
    case Publish(content) => PublishKeepsInv(sha, universe, s, content);
    case MakeLeaf(_) => LeafMade(sha, universe, s, a);
    case PutManifest => ManifestPublished(sha, universe, s, a);
    case Select(_) => RetentionChosen(sha, universe, s, a);
    case DropManifest => LeafRemoved(sha, universe, s, a);
    case DropLeaf => LeafRemoved(sha, universe, s, a);
    case Survey => BlocksCollected(sha, universe, s, a);
    case Unlink(_) => BlocksCollected(sha, universe, s, a);
    case _ =>
      LeavesKeepBlocks(sha, s, Do(sha, s, a));
  }

  lemma {:induction false} RunKeepsInv(sha: Hash, universe: iset<Bytes>, s: Store, run: seq<Action>)
    requires CollisionFree(sha, universe) && Inv(sha, universe, s) && EnabledRun(sha, universe, s, run)
    ensures Inv(sha, universe, DoAll(sha, universe, s, run))
    decreases |run|
  {
    if run != [] {
      StepKeepsInv(sha, universe, s, run[0]);
      RunKeepsInv(sha, universe, Do(sha, s, run[0]), run[1..]);
    }
  }
}

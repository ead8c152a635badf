/** The incremental store of snapshot.py. Its loops perform steps of the store machine only, so
    every state they pass through is safe and any of them may be the last one. */
module Snapshot {
  import opened Blocks
  import opened Json
  import opened Manifests
  import opened Restore
  import opened Retention
  import opened StoreMachine
  import opened StoreSafety
  import opened Wrappers

  datatype SnapshotError = BadRetention | DamagedBlock | UnsupportedManifest | ChecksumFailed

  lemma {:induction false} RunAppend(sha: Hash, universe: iset<Bytes>, s: Store, run: seq<Action>, a: Action)
    requires EnabledRun(sha, universe, s, run)
    requires Enabled(sha, DoAll(sha, universe, s, run), a) && Within(universe, a)
    ensures EnabledRun(sha, universe, s, run + [a])
    ensures DoAll(sha, universe, s, run + [a]) == Do(sha, DoAll(sha, universe, s, run), a)
    decreases |run|
  {
    hide Enabled;
    hide Do;
    if run == [] {
      assert run + [a] == [a];
      assert EnabledRun(sha, universe, Do(sha, s, a), []);
    } else {
      assert (run + [a])[1..] == run[1..] + [a];
      RunAppend(sha, universe, Do(sha, s, run[0]), run[1..], a);
    }
  }

  /** A piece can be settled: its block is sound, or absent and what gets written reads back. */
  predicate Settles(sha: Hash, blocks: map<string, Bytes>, write: Bytes -> Bytes, p: Bytes) {
    if sha(p) in blocks then sha(blocks[sha(p)]) == sha(p) else sha(write(p)) == sha(p)
  }

  predicate Grows(blocks: map<string, Bytes>, blocks': map<string, Bytes>) {
    forall n :: n in blocks ==> n in blocks' && blocks'[n] == blocks[n]
  }

  // --- what a backup reports about itself --------------------------------------------------

  /** The bytes of the pieces whose block the store did not hold at first, each counted once. */
  function NewBytes(sha: Hash, first: map<string, Bytes>, pieces: seq<Bytes>): nat {
    if pieces == [] then 0
    else
      var n := |pieces| - 1;
      NewBytes(sha, first, pieces[..n])
      + if sha(pieces[n]) !in first && forall i :: 0 <= i < n ==> sha(pieces[i]) != sha(pieces[n]) then |pieces[n]| else 0
  }

  lemma NewBytesNext(sha: Hash, first: map<string, Bytes>, pieces: seq<Bytes>, k: nat)
    requires k < |pieces|
    ensures NewBytes(sha, first, pieces[..k + 1]) ==
              NewBytes(sha, first, pieces[..k])
              + if sha(pieces[k]) !in first && forall i :: 0 <= i < k ==> sha(pieces[i]) != sha(pieces[k]) then |pieces[k]| else 0
  {
    var more := pieces[..k + 1];
    assert more[..k] == pieces[..k] && more[k] == pieces[k];
  }

  /** The backup has counted as new what is new among the pieces it has copied so far. */
  ghost predicate Accounted(sha: Hash, first: map<string, Bytes>, ph: Phase) {
    ph.Copying? && ph.done <= |Plan(ph.job.stage)| && ph.added == NewBytes(sha, first, Plan(ph.job.stage)[..ph.done])
  }

  /** A file entry of a manifest: the digest and size of the file, and those of its pieces in order. */
  ghost predicate EntryDescribes(j: Json, sha: Hash, data: Bytes) {
    && j.Obj? && j.fields.Keys == {"sha256", "size", "blocks"}
    && Get(j, "sha256") == Str(sha(data)) && Get(j, "size") == Int(|data|)
    && Get(j, "blocks").Arr? && |Get(j, "blocks").items| == |Pieces(data)|
    && forall i :: 0 <= i < |Pieces(data)| ==>
         Get(j, "blocks").items[i] == Obj(map["sha256" := Str(sha(Pieces(data)[i])), "size" := Int(|Pieces(data)[i]|)])
  }

  /** A manifest that describes this stage and so many new bytes; the rest was reused. */
  ghost predicate Describes(j: Json, sha: Hash, source: SourceId, stage: Stage, application: string, userVersion: int,
                            schema: Digest, unseen: nat) {
    var size := |stage.db| + if stage.config.Some? then |stage.config.value| else 0;
    && j.Obj?
    && j.fields.Keys == {"format", "format_version", "application_version", "sqlite_user_version", "schema_sha256", "source",
                         "files", "logical_bytes", "new_bytes", "reused_bytes"}
    && Get(j, "format") == Str("neocortex-snapshot") && Get(j, "format_version") == Int(2)
    && Get(j, "application_version") == Str(application) && Get(j, "sqlite_user_version") == Int(userVersion)
    && Get(j, "schema_sha256") == Str(schema) && Get(j, "source") == Str(source)
    && Get(j, "logical_bytes") == Int(size) && Get(j, "new_bytes") == Int(unseen) && Get(j, "reused_bytes") == Int(size - unseen)
    && Get(j, "files").Obj?
    && Get(j, "files").fields.Keys == {"state.db"} + (if stage.config.Some? then {"config.json"} else {})
    && EntryDescribes(Get(Get(j, "files"), "state.db"), sha, stage.db)
    && (stage.config.Some? ==> EntryDescribes(Get(Get(j, "files"), "config.json"), sha, stage.config.value))
  }

  lemma EncodedEntryDescribes(sha: Hash, data: Bytes)
    ensures EntryDescribes(EncodeEntry(Entry(sha, data)), sha, data)
  {
    hide Pieces;
  }

  lemma EncodedFilesDescribe(sha: Hash, stage: Stage)
    ensures var files := Obj(EncodeFiles(Entries(sha, stage)));
            && files.fields.Keys == {"state.db"} + (if stage.config.Some? then {"config.json"} else {})
            && EntryDescribes(Get(files, "state.db"), sha, stage.db)
            && (stage.config.Some? ==> EntryDescribes(Get(files, "config.json"), sha, stage.config.value))
  {
    hide EncodeEntry;
    hide EntryDescribes;
    hide Entry;
    EncodedEntryDescribes(sha, stage.db);
    if stage.config.Some? { EncodedEntryDescribes(sha, stage.config.value); }
  }

  lemma EncodedKeys(m: Manifest)
    ensures Encode(m).Obj? && Encode(m).fields.Keys == ManifestKeys
    ensures Get(Encode(m), "format") == Str("neocortex-snapshot") && Get(Encode(m), "format_version") == Int(2)
  {
    hide EncodeFiles;
  }

  /** The manifest a backup publishes says what it ought to. */
  lemma PublishedDescribes(sha: Hash, job: Job, added: nat, reused: nat)
    requires added + reused == Total(Plan(job.stage))
    ensures Describes(Encode(ManifestOf(sha, job, added, reused)), sha, job.source, job.stage, job.application, job.userVersion,
                      job.schema, added)
  {
    hide Pieces;
    hide Plan;
    hide Total;
    hide EncodeFiles;
    hide EntryDescribes;
    hide Entries;
    var m := ManifestOf(sha, job, added, reused);
    LogicalIsPlan(sha, job.stage);
    StageEntries(sha, job.stage);
    EncodedFields(m);
    EncodedKeys(m);
    EncodedFilesDescribe(sha, job.stage);
    hide Encode;
    hide LogicalBytes;
    hide Get;
  }

  class BlockStore {
    const sha: Hash
    ghost const universe: iset<Bytes>
    var blocks: map<string, Bytes>
    var leaves: map<Leaf, Option<Json>>
    ghost var now: Store
    ghost var log: seq<Action>

    /** Everything logged is a run of the machine, which is now in state `now`. */
    ghost predicate Logged()
      reads this
    {
      && CollisionFree(sha, universe) && Inv(sha, universe, now)
      && EnabledRun(sha, universe, EmptyStore, log) && DoAll(sha, universe, EmptyStore, log) == now
    }

    ghost predicate Valid()
      reads this
    {
      Logged() && now.blocks == blocks && now.leaves == leaves
    }

    constructor (sha: Hash, ghost universe: iset<Bytes>)
      requires CollisionFree(sha, universe)
      ensures Valid() && this.sha == sha && this.universe == universe && now == EmptyStore
    {
      this.sha, this.universe := sha, universe;
      blocks, leaves := map[], map[];
      now, log := EmptyStore, [];
    }

    ghost method Step(a: Action)
      requires Logged() && Enabled(sha, now, a) && Within(universe, a)
      modifies this`now, this`log
      ensures Logged() && now == Do(sha, old(now), a) && log == old(log) + [a]
    {
      hide Enabled;
      hide Do;
      hide Inv;
      StepKeepsInv(sha, universe, now, a);
      RunAppend(sha, universe, EmptyStore, log, a);
      now, log := Do(sha, now, a), log + [a];
    }

    /** One piece: reuse its block, refuse a damaged one, or write it and read it back. */
    method SettlePiece(p: Bytes, write: Bytes -> Bytes) returns (how: Settled)
      requires Valid() && now.phase.Copying? && now.phase.done < |Plan(now.phase.job.stage)|
      requires Piece(now.phase) == p && write(p) in universe
      modifies this`blocks, this`now, this`log
      ensures Valid() && now.saved == old(now.saved) && old(log) <= log
      ensures Grows(old(blocks), blocks) && forall n :: n in blocks ==> n in old(blocks) || n == sha(p)
      ensures how == Failed <==> !Settles(sha, old(blocks), write, p)
      ensures how == Failed ==> now.phase == Idle
      ensures how != Failed ==> Present(sha, blocks, p)
      ensures how == Reused ==>
                && blocks == old(blocks) && sha(p) in old(blocks)
                && Ahead(old(now.phase), now.phase, 1, 0, |p|)
      ensures how == Written ==>
                && blocks == old(blocks)[sha(p) := p] && sha(p) !in old(blocks)
                && Ahead(old(now.phase), now.phase, 1, |p|, 0)
    {
      hide Inv;
      hide DoAll;
      hide EnabledRun;
      hide Plan;
      var name := sha(p);
      if name in blocks {
        if sha(blocks[name]) != name {
          Step(Abandon);
          return Failed;
        }
        PiecePresent(sha, universe, now, Reuse);
        Step(Reuse);
        how := Reused;
      } else {
        var content := write(p);
        PiecePresent(sha, universe, now, Publish(content));
        blocks := blocks[name := content];
        Step(Publish(content));
        how := if sha(content) == name then Written else Failed;
      }
    }

    /** The next piece of the plan; first is what the store held when the backup began. */
    method CopyPiece(p: Bytes, write: Bytes -> Bytes, ghost first: map<string, Bytes>) returns (how: Settled)
      requires Valid() && now.phase.Copying? && now.phase.done < |Plan(now.phase.job.stage)|
      requires Piece(now.phase) == p && write(p) in universe
      requires Copied(sha, first, blocks, write, Plan(now.phase.job.stage), now.phase.done)
      requires Accounted(sha, first, now.phase)
      modifies this`blocks, this`now, this`log
      ensures Valid() && now.saved == old(now.saved) && old(log) <= log
      ensures how != Failed ==> Accounted(sha, first, now.phase)
      ensures Grows(old(blocks), blocks)
      ensures how == Failed <==> !Settles(sha, first, write, p)
      ensures how == Failed ==> now.phase == Idle
      ensures how != Failed ==>
                && Ahead(old(now.phase), now.phase, 1, if how == Written then |p| else 0, if how == Reused then |p| else 0)
                && Copied(sha, first, blocks, write, Plan(now.phase.job.stage), now.phase.done)
    {
      hide Inv;
      hide DoAll;
      hide EnabledRun;
      hide Plan;
      hide Copied;
      hide Settles;
      hide Present;
      hide CollisionFree;
      ghost var plan, done := Plan(now.phase.job.stage), now.phase.done;
      SettlesLater(sha, universe, now, first, write, plan, done);
      HeldSoFar(sha, first, blocks, write, plan, done);
      NewBytesNext(sha, first, plan, done);
      how := SettlePiece(p, write);
      if how != Failed { CopiedNext(sha, first, old(blocks), blocks, write, plan, done); }
    }

    /** Copies one file's pieces, which are the next ones of the plan. `write` tells what a freshly
        written block reads back as, and first is what the store held when the backup began. */
    method CopyBlocks(data: Bytes, write: Bytes -> Bytes, ghost first: map<string, Bytes>)
      returns (ok: bool, refs: seq<PieceRef>, added: nat, reused: nat)
      requires Valid() && now.phase.Copying? && NextPieces(now.phase, Pieces(data))
      requires Copied(sha, first, blocks, write, Plan(now.phase.job.stage), now.phase.done)
      requires Accounted(sha, first, now.phase)
      requires forall p :: p in Pieces(data) ==> write(p) in universe
      modifies this`blocks, this`now, this`log
      ensures Valid() && now.saved == old(now.saved) && old(log) <= log
      ensures Grows(old(blocks), blocks)
      ensures ok <==> forall p :: p in Pieces(data) ==> Settles(sha, first, write, p)
      ensures ok ==> refs == Refs(sha, Pieces(data)) && added + reused == |data|
      ensures ok ==> Ahead(old(now.phase), now.phase, |Pieces(data)|, added, reused)
                     && now.phase.done <= |Plan(now.phase.job.stage)|
                     && Copied(sha, first, blocks, write, Plan(now.phase.job.stage), now.phase.done)
                     && Accounted(sha, first, now.phase)
      ensures !ok ==> now.phase == Idle
    {
      hide Inv;
      hide DoAll;
      hide EnabledRun;
      hide Plan;
      hide Copied;
      hide Settles;
      hide Present;
      hide CollisionFree;
      hide Pieces;
      hide NextPieces;
      hide Accounted;
      var pieces := Pieces(data);
      refs, added, reused := Refs(sha, pieces), 0, 0;
      ghost var start, plan := now.phase, Plan(now.phase.job.stage);
      assert Total(pieces) == |data| by { PiecesJoin(data); }
      NextInPlan(start, pieces);
      for k := 0 to |pieces|
        invariant Valid() && now.saved == old(now.saved) && old(log) <= log
        invariant Grows(old(blocks), blocks)
        invariant Copied(sha, first, blocks, write, plan, start.done + k)
        invariant Ahead(start, now.phase, k, added, reused) && Accounted(sha, first, now.phase)
        invariant added + reused == Total(pieces[..k])
        invariant forall i :: 0 <= i < k ==> Settles(sha, first, write, pieces[i])
      {
        var how := CopyPiece(pieces[k], write, first);
        if how == Failed {
          return false, refs, added, reused;
        }
        if how == Reused { reused := reused + |pieces[k]|; } else { added := added + |pieces[k]|; }
        OneMoreTotal(pieces, k);
      }
      assert pieces[..|pieces|] == pieces;
      ok := true;
    }

    method Recent(rest: set<Leaf>) returns (newest: Leaf)
      requires rest != {} && forall k, l :: k in rest && l in rest ==> k.source == l.source
      ensures newest in rest && forall l :: l in rest && l != newest ==> l.stamp < newest.stamp
    {
      newest :| newest in rest;
      var todo := rest;
      while todo != {}
        invariant todo <= rest && newest in rest
        invariant forall l :: l in rest && l !in todo && l != newest ==> l.stamp < newest.stamp
        decreases todo
      {
        var l :| l in todo;
        if l.stamp > newest.stamp { newest := l; }
        todo := todo - {l};
      }
    }

    /** The recognised leaves of a source, sorted newest first. */
    method RecognisedLeaves(source: SourceId) returns (order: seq<Leaf>)
      ensures NewestFirst(leaves, source, order)
    {
      hide At;
      var rest := Recognised(leaves, source);
      order := [];
      while rest != {}
        invariant rest <= Recognised(leaves, source)
        invariant forall l :: l in order <==> l in Recognised(leaves, source) && l !in rest
        invariant forall i, j :: 0 <= i < j < |order| ==> order[i].stamp > order[j].stamp
        invariant forall l, k :: l in order && k in rest ==> l.stamp > k.stamp
        decreases rest
      {
        var l := Recent(rest);
        order, rest := order + [l], rest - {l};
      }
    }

    /** Removes one leaf: first the manifest, then the directory. */
    method RemoveLeaf(l: Leaf)
      requires Valid() && now.phase.Pruning? && now.phase.doomed != [] && now.phase.doomed[0] == l
      requires At(leaves, l).Some?
      modifies this`leaves, this`now, this`log
      ensures Valid() && now.saved == old(now.saved) && old(log) <= log
      ensures now.phase == old(now.phase).(doomed := old(now.phase.doomed)[1..])
      ensures leaves == old(leaves) - {l}
    {
      hide Inv;
      hide DoAll;
      hide EnabledRun;
      hide Decode;
      hide Plan;
      hide CollisionFree;
      leaves := leaves[l := None];
      Step(DropManifest);
      leaves := leaves - {l};
      Step(DropLeaf);
    }

    method RemoveLeaves(doomed: seq<Leaf>)
      requires Valid() && now.phase.Pruning? && now.phase.doomed == doomed
      requires forall l :: l in doomed ==> At(leaves, l).Some?
      modifies this`leaves, this`now, this`log
      ensures Valid() && now.phase == old(now.phase).(doomed := []) && now.saved == old(now.saved) && old(log) <= log
      ensures leaves == old(leaves) - Elements(doomed)
    {
      hide Inv;
      hide DoAll;
      hide EnabledRun;
      hide Decode;
      hide Plan;
      hide CollisionFree;
      DoomedDistinct(sha, universe, now);
      for i := 0 to |doomed|
        invariant Valid() && now.saved == old(now.saved) && old(log) <= log
        invariant now.phase == old(now.phase).(doomed := doomed[i..])
        invariant leaves == old(leaves) - Elements(doomed[..i])
      {
        var l := doomed[i];
        assert doomed[i..][0] == l && doomed[i..][1..] == doomed[i + 1..];
        assert l !in Elements(doomed[..i]) && At(leaves, l) == At(old(leaves), l);
        RemoveLeaf(l);
        assert doomed[..i + 1] == doomed[..i] + [l];
        assert Elements(doomed[..i + 1]) == Elements(doomed[..i]) + {l};
      }
      assert doomed[..|doomed|] == doomed && doomed[|doomed|..] == [];
    }

    /** Unlinks the digest-named files that nothing recognised mentions, in any order. */
    method CollectBlocks()
      requires Valid() && now.phase.Pruning? && now.phase.doomed == []
      modifies this`blocks, this`now, this`log
      ensures Valid() && now.phase == Idle && now.saved == old(now.saved) && old(log) <= log
      ensures blocks == Collected(old(blocks), leaves)
    {
      hide Inv;
      hide DoAll;
      hide EnabledRun;
      hide Enabled;
      hide Do;
      hide CollisionFree;
      hide Referenced;
      hide IsDigest;
      SurveyStep(sha, now);
      var referenced := Referenced(leaves);
      var left := BlockNames(blocks);
      Step(Survey);
      ghost var job, leaf, unlinked: set<string> := now.phase.job, now.phase.leaf, {};
      while left != {}
        invariant Valid() && now.saved == old(now.saved) && old(log) <= log
        invariant now.phase == Collecting(job, leaf, referenced, BlockNames(old(blocks)) - unlinked)
        invariant left !! unlinked && left + unlinked <= BlockNames(old(blocks))
        invariant unlinked !! referenced && BlockNames(old(blocks)) - unlinked - left <= referenced
        invariant blocks == old(blocks) - unlinked
        decreases left
      {
        var n :| n in left;
        if n !in referenced {
          UnlinkStep(sha, now, n);
          blocks := blocks - {n};
          Step(Unlink(n));
          unlinked := unlinked + {n};
        }
        left := left - {n};
      }
      FinishStep(sha, now);
      Step(Finish);
      assert blocks == Collected(old(blocks), leaves);
    }

    /** Retention for one source, then garbage collection across all sources. */
    method PruneStore(source: SourceId, retain: nat)
      requires Valid() && now.phase.Selecting? && now.phase.job.source == source && now.phase.job.retain == retain
      modifies this
      ensures Valid() && now.phase == Idle && now.saved == old(now.saved) && old(log) <= log
      ensures leaves == Retained(old(leaves), source, retain)
      ensures blocks == Collected(old(blocks), leaves)
      ensures BlockNames(blocks) == Referenced(leaves)
    {
      hide Inv;
      hide DoAll;
      hide EnabledRun;
      hide At;
      hide Digests;
      var order := RecognisedLeaves(source);
      Step(Select(order));
      BeyondIsExpired(leaves, source, order, retain);
      var doomed := Beyond(order, retain);
      assert forall l :: l in doomed ==> l in order;
      RemoveLeaves(doomed);
      assert leaves == Retained(old(leaves), source, retain);
      CollectedIsReferenced(sha, universe, now);
      CollectBlocks();
    }

    /** Copies the staged files in order; first is what the store held when the backup began. */
    method CopyStage(stage: Stage, write: Bytes -> Bytes, ghost first: map<string, Bytes>)
      returns (ok: bool, files: map<string, FileEntry>, added: nat, reused: nat)
      requires Valid() && now.phase.Copying? && now.phase.job.stage == stage
      requires now.phase.done == now.phase.added == now.phase.reused == 0 && blocks == first
      requires forall p :: p in Plan(stage) ==> write(p) in universe
      modifies this`blocks, this`now, this`log
      ensures Valid() && now.saved == old(now.saved) && old(log) <= log
      ensures Grows(first, blocks)
      ensures ok <==> forall p :: p in Plan(stage) ==> Settles(sha, first, write, p)
      ensures ok ==> files == Entries(sha, stage) && added + reused == Total(Plan(stage))
                     && added == NewBytes(sha, first, Plan(stage))
      ensures ok ==> now.phase == Copying(old(now.phase.job), |Plan(stage)|, added, reused)
      ensures !ok ==> now.phase == Idle
    {
      hide Inv;
      hide DoAll;
      hide EnabledRun;
      hide Copied;
      hide Settles;
      hide Present;
      hide CollisionFree;
      hide Pieces;
      hide Plan;
      hide Total;
      hide Entries;
      hide NextPieces;
      hide Accounted;
      NothingCopied(sha, first, write, Plan(stage));
      NothingAccounted(sha, first, now.phase);
      PlanPieces(stage);
      FirstPieces(now.phase);
      var refs, n, m;
      ok, refs, added, reused := CopyBlocks(stage.db, write, first);
      if !ok { return false, map[], added, reused; }
      files := map[DATABASE := FileEntry(sha(stage.db), |stage.db|, refs)];
      if stage.config.Some? {
        SecondPieces(now.phase);
        ok, refs, n, m := CopyBlocks(stage.config.value, write, first);
        if !ok { return false, map[], added, reused; }
        files := files[CONFIG := FileEntry(sha(stage.config.value), |stage.config.value|, refs)];
        added, reused := added + n, reused + m;
      }
      CopiedGrows(sha, first, blocks, write, Plan(stage), now.phase.done);
      AllAccounted(sha, first, now.phase);
      StageEntries(sha, stage);
    }

    /** Makes the new leaf and puts the manifest into it, which is the last publication. */
    method PublishManifest(job: Job, files: map<string, FileEntry>, added: nat, reused: nat, stamp: nat) returns (leaf: Leaf)
      requires Valid() && now.phase == Copying(job, |Plan(job.stage)|, added, reused)
      requires files == Entries(sha, job.stage) && added + reused == Total(Plan(job.stage))
      requires forall l :: l in leaves && l.source == job.source ==> l.stamp < stamp
      modifies this`leaves, this`now, this`log
      ensures Valid() && now.phase == Selecting(job, leaf) && old(log) <= log
      ensures leaf == Leaf(job.source, stamp)
      ensures leaves == old(leaves)[leaf := Some(Encode(ManifestOf(sha, job, added, reused)))]
      ensures now.saved == old(now.saved)[leaf := job.stage]
      ensures At(leaves, leaf).Some?
    {
      hide Inv;
      hide DoAll;
      hide EnabledRun;
      hide Plan;
      hide CollisionFree;
      hide Decode;
      hide Encode;
      hide Entries;
      hide Total;
      leaf := Leaf(job.source, stamp);
      leaves := leaves[leaf := None];
      Step(MakeLeaf(stamp));
      var manifest := Manifest(job.application, job.userVersion, job.schema, job.source, files, LogicalBytes(files), added, reused);
      leaves := leaves[leaf := Some(Encode(manifest))];
      Step(PutManifest);
      WrittenManifestIsRecognised(sha, job, added, reused);
    }

    /** One backup from beginning to end. A damaged block stops it before anything is published. */
    method IncrementalBackup(source: SourceId, stage: Stage, retain: int, application: string, userVersion: int,
                             schema: Digest, stamp: nat, write: Bytes -> Bytes)
      returns (r: Result<Leaf, SnapshotError>, ghost added: nat, ghost reused: nat)
      requires Valid() && now.phase.Idle?
      requires forall l :: l in leaves && l.source == source ==> l.stamp < stamp
      requires forall p :: p in Plan(stage) ==> p in universe && write(p) in universe
      modifies this
      ensures Valid() && now.phase == Idle && old(log) <= log
      ensures r.Ok? <==> retain > 0 && forall p :: p in Plan(stage) ==> Settles(sha, old(blocks), write, p)
      ensures r.Err? ==> leaves == old(leaves) && Grows(old(blocks), blocks) && now.saved == old(now.saved)
      ensures r.Err? ==> r.error == if retain <= 0 then BadRetention else DamagedBlock
      ensures r.Ok? ==>
                && r.value == Leaf(source, stamp) && added + reused == Total(Plan(stage))
                && added == NewBytes(sha, old(blocks), Plan(stage))
                && leaves == Retained(old(leaves)[r.value := Some(Encode(ManifestOf(sha,
                               Job(source, stage, retain, application, userVersion, schema), added, reused)))], source, retain)
                && now.saved == old(now.saved)[r.value := stage]
                && BlockNames(blocks) == Referenced(leaves)
                && r.value in leaves && leaves[r.value].Some?
                && Materialize(sha, blocks, leaves[r.value].value) == Some(Files(stage))
      ensures r.Ok? ==>
                && leaves == Retained(old(leaves)[r.value := leaves[r.value]], source, retain)
                && Describes(leaves[r.value].value, sha, source, stage, application, userVersion, schema,
                             NewBytes(sha, old(blocks), Plan(stage)))
                && forall n :: n in old(blocks) && (!IsDigest(n) || n in Referenced(leaves)) ==> n in blocks && blocks[n] == old(blocks)[n]
    {
      hide Inv;
      hide DoAll;
      hide EnabledRun;
      hide Plan;
      hide Settles;
      hide CollisionFree;
      hide Referenced;
      hide At;
      hide ManifestOf;
      hide Encode;
      hide Entries;
      hide Expired;
      hide Total;
      hide Materialize;
      hide Files;
      hide Describes;
      added, reused := 0, 0;
      if retain <= 0 {
        return Err(BadRetention), 0, 0;
      }
      var job := Job(source, stage, retain, application, userVersion, schema);
      Step(Begin(job));
      var ok, files, n, m := CopyStage(stage, write, blocks);
      if !ok { return Err(DamagedBlock), 0, 0; }
      added, reused := n, m;
      var leaf := PublishManifest(job, files, n, m, stamp);
      NewLeafIsKept(leaves, leaf, retain);
      PruneStore(source, retain);
      RecognisedLeafRestores(sha, universe, now, leaf);
      PublishedDescribes(sha, job, n, m);
      r := Ok(leaf);
    }

    /** One file of a snapshot, block by block; every block is checked before it is copied. */
    method ReadBlocks(e: FileEntry) returns (data: Option<Bytes>)
      ensures data == ReadFile(sha, blocks, e)
    {
      var content: Bytes, total := [], 0;
      for k := 0 to |e.blocks|
        invariant total == RefTotal(e.blocks[..k])
        invariant ReadPieces(sha, blocks, e.blocks[..k]) == Some(content)
      {
        assert e.blocks[..k + 1] == e.blocks[..k] + [e.blocks[k]];
        RefTotalAppend(e.blocks[..k], e.blocks[k]);
        if !BlockMatches(sha, blocks, e.blocks[k]) {
          ReadStops(sha, blocks, e.blocks, k);
          return None;
        }
        ReadOneMore(sha, blocks, e.blocks[..k], e.blocks[k]);
        content, total := content + blocks[e.blocks[k].sha256], total + e.blocks[k].size;
      }
      assert e.blocks[..|e.blocks|] == e.blocks;
      data := if total == e.size && sha(content) == e.sha256 then Some(content) else None;
    }

    /** The plain files a manifest stands for, or an error when it or a block is not acceptable. */
    method MaterializeIncremental(j: Json) returns (r: Result<map<string, Bytes>, SnapshotError>)
      ensures r.Ok? <==> Materialize(sha, blocks, j).Some?
      ensures r.Ok? ==> Materialize(sha, blocks, j) == Some(r.value)
      ensures r.Err? ==> r.error == if Decode(j, None).None? then UnsupportedManifest else ChecksumFailed
    {
      hide Decode;
      hide ReadFile;
      var m := IncrementalManifest(j, None);
      if m.None? { return Err(UnsupportedManifest); }
      var files := m.value.files;
      var out: map<string, Bytes>, left := map[], files.Keys;
      while left != {}
        invariant left <= files.Keys && out.Keys == files.Keys - left
        invariant forall n :: n in out ==> ReadFile(sha, blocks, files[n]) == Some(out[n])
        decreases left
      {
        var n :| n in left;
        var data := ReadBlocks(files[n]);
        if data.None? { return Err(ChecksumFailed); }
        out, left := out[n := data.value], left - {n};
      }
      assert Materialize(sha, blocks, j).Some?;
      assert Materialize(sha, blocks, j).value == out;
      r := Ok(out);
    }
  }

  lemma {:induction false} ReadOneMore(sha: Hash, blocks: map<string, Bytes>, refs: seq<PieceRef>, last: PieceRef)
    requires ReadPieces(sha, blocks, refs).Some? && BlockMatches(sha, blocks, last)
    ensures ReadPieces(sha, blocks, refs + [last]) == Some(ReadPieces(sha, blocks, refs).value + blocks[last.sha256])
    decreases |refs|
  {
    var more, end := refs + [last], blocks[last.sha256];
    if refs == [] {
      assert more[1..] == [];
      assert end + [] == end == [] + end;
    } else {
      var head, rest := blocks[refs[0].sha256], ReadPieces(sha, blocks, refs[1..]).value;
      hide BlockMatches;
      assert more[1..] == refs[1..] + [last];
      ReadOneMore(sha, blocks, refs[1..], last);
      JoinedTwice(head, rest, end);
    }
  }

  lemma JoinedTwice(a: Bytes, b: Bytes, c: Bytes)
    ensures (a + b) + c == a + (b + c)
  {
  }

  /** One bad block spoils the file. */
  lemma {:induction false} ReadStops(sha: Hash, blocks: map<string, Bytes>, refs: seq<PieceRef>, k: nat)
    requires k < |refs| && !BlockMatches(sha, blocks, refs[k])
    ensures ReadPieces(sha, blocks, refs).None?
    decreases k
  {
    if k > 0 { ReadStops(sha, blocks, refs[1..], k - 1); }
  }

  /** The first k pieces are settled in blocks, which otherwise still holds what it held first. */
  ghost predicate Copied(sha: Hash, first: map<string, Bytes>, blocks: map<string, Bytes>,
                         write: Bytes -> Bytes, pieces: seq<Bytes>, k: nat)
    requires k <= |pieces|
  {
    && Grows(first, blocks)
    && (forall n :: n in blocks ==> n in first || exists i :: 0 <= i < k && n == sha(pieces[i]))
    && (forall i :: 0 <= i < k ==> Settles(sha, first, write, pieces[i]) && Present(sha, blocks, pieces[i]))
  }

  lemma NothingAccounted(sha: Hash, first: map<string, Bytes>, ph: Phase)
    requires ph.Copying? && ph.done == ph.added == 0
    ensures Accounted(sha, first, ph)
  {
  }

  lemma AllAccounted(sha: Hash, first: map<string, Bytes>, ph: Phase)
    requires Accounted(sha, first, ph) && ph.done == |Plan(ph.job.stage)|
    ensures ph.added == NewBytes(sha, first, Plan(ph.job.stage))
  {
    hide Plan;
    assert Plan(ph.job.stage)[..ph.done] == Plan(ph.job.stage);
  }

  lemma NothingCopied(sha: Hash, first: map<string, Bytes>, write: Bytes -> Bytes, pieces: seq<Bytes>)
    ensures Copied(sha, first, first, write, pieces, 0)
  {
  }

  /** A block is there when it was there at first or belongs to a piece copied before. */
  lemma HeldSoFar(sha: Hash, first: map<string, Bytes>, blocks: map<string, Bytes>, write: Bytes -> Bytes, pieces: seq<Bytes>, k: nat)
    requires k < |pieces| && Copied(sha, first, blocks, write, pieces, k)
    ensures sha(pieces[k]) in blocks <==> sha(pieces[k]) in first || exists i :: 0 <= i < k && sha(pieces[i]) == sha(pieces[k])
  {
    if i :| 0 <= i < k && sha(pieces[i]) == sha(pieces[k]) { assert Present(sha, blocks, pieces[i]); }
  }

  lemma CopiedNext(sha: Hash, first: map<string, Bytes>, before: map<string, Bytes>, blocks: map<string, Bytes>,
                   write: Bytes -> Bytes, pieces: seq<Bytes>, k: nat)
    requires k < |pieces| && Copied(sha, first, before, write, pieces, k)
    requires Grows(before, blocks) && forall n :: n in blocks ==> n in before || n == sha(pieces[k])
    requires Settles(sha, first, write, pieces[k]) && Present(sha, blocks, pieces[k])
    ensures Copied(sha, first, blocks, write, pieces, k + 1)
  {
    forall i | 0 <= i < k ensures Present(sha, blocks, pieces[i]) {
      assert Present(sha, before, pieces[i]);
    }
  }

  /** The backup has copied so many pieces more, with so many new and reused bytes. */
  predicate Ahead(ph: Phase, ph': Phase, pieces: nat, added: nat, reused: nat) {
    && ph.Copying? && ph'.Copying? && ph'.job == ph.job
    && ph'.done == ph.done + pieces && ph'.added == ph.added + added && ph'.reused == ph.reused + reused
  }

  lemma SurveyStep(sha: Hash, s: Store)
    requires s.phase.Pruning? && s.phase.doomed == []
    ensures Enabled(sha, s, Survey)
    ensures Do(sha, s, Survey) == s.(phase := Collecting(s.phase.job, s.phase.leaf, Referenced(s.leaves), BlockNames(s.blocks)))
  {
    hide Referenced;
  }

  lemma UnlinkStep(sha: Hash, s: Store, n: string)
    requires s.phase.Collecting? && n in s.phase.left && n !in s.phase.referenced
    ensures Enabled(sha, s, Unlink(n))
    ensures Do(sha, s, Unlink(n)) == s.(blocks := s.blocks - {n}, phase := s.phase.(left := s.phase.left - {n}))
  {
  }

  lemma FinishStep(sha: Hash, s: Store)
    requires s.phase.Collecting? && s.phase.left <= s.phase.referenced
    ensures Enabled(sha, s, Finish) && Do(sha, s, Finish) == s.(phase := Idle)
  {
  }

  lemma DoomedDistinct(sha: Hash, universe: iset<Bytes>, s: Store)
    requires Inv(sha, universe, s) && s.phase.Pruning?
    ensures forall i, j :: 0 <= i < j < |s.phase.doomed| ==> s.phase.doomed[i] != s.phase.doomed[j]
  {
  }

  lemma CopiedGrows(sha: Hash, first: map<string, Bytes>, blocks: map<string, Bytes>,
                    write: Bytes -> Bytes, pieces: seq<Bytes>, k: nat)
    requires k <= |pieces| && Copied(sha, first, blocks, write, pieces, k)
    ensures Grows(first, blocks)
  {
  }

  /** The pieces to copy are those of the database, then those of the configuration. */
  lemma PlanPieces(stage: Stage)
    ensures forall p :: p in Plan(stage) <==> p in Pieces(stage.db) || (stage.config.Some? && p in Pieces(stage.config.value))
    ensures |Plan(stage)| == |Pieces(stage.db)| + if stage.config.Some? then |Pieces(stage.config.value)| else 0
  {
    hide Pieces;
  }

  lemma FirstPieces(ph: Phase)
    requires ph.Copying? && ph.done == 0
    ensures NextPieces(ph, Pieces(ph.job.stage.db))
  {
    hide Pieces;
    var stage := ph.job.stage;
    assert Plan(stage)[..|Pieces(stage.db)|] == Pieces(stage.db);
  }

  lemma SecondPieces(ph: Phase)
    requires ph.Copying? && ph.job.stage.config.Some? && ph.done == |Pieces(ph.job.stage.db)|
    ensures NextPieces(ph, Pieces(ph.job.stage.config.value))
  {
    hide Pieces;
    var stage := ph.job.stage;
    assert Plan(stage)[|Pieces(stage.db)|..] == Pieces(stage.config.value);
  }

  lemma StageEntries(sha: Hash, stage: Stage)
    ensures Total(Plan(stage)) == |stage.db| + if stage.config.Some? then |stage.config.value| else 0
    ensures var db := FileEntry(sha(stage.db), |stage.db|, Refs(sha, Pieces(stage.db)));
            Entries(sha, stage) ==
              if stage.config.Some? then
                map[DATABASE := db][CONFIG := FileEntry(sha(stage.config.value), |stage.config.value|, Refs(sha, Pieces(stage.config.value)))]
              else map[DATABASE := db]
  {
    LogicalIsPlan(sha, stage);
  }

  lemma NewLeafIsKept(leaves: map<Leaf, Option<Json>>, leaf: Leaf, retain: nat)
    requires retain > 0 && leaf in leaves
    requires forall l :: l in leaves && l.source == leaf.source && l != leaf ==> l.stamp < leaf.stamp
    ensures !Expired(leaves, leaf.source, retain, leaf)
    ensures At(Retained(leaves, leaf.source, retain), leaf) == At(leaves, leaf)
  {
    hide Decode;
    assert Newer(leaves, leaf) == {};
  }

  datatype Settled = Reused | Written | Failed

  /** These are the next pieces the running backup has to copy. */
  ghost predicate NextPieces(ph: Phase, pieces: seq<Bytes>)
    requires ph.Copying?
  {
    var plan := Plan(ph.job.stage);
    ph.done + |pieces| <= |plan| && plan[ph.done..ph.done + |pieces|] == pieces
  }

  lemma NextInPlan(ph: Phase, pieces: seq<Bytes>)
    requires ph.Copying? && NextPieces(ph, pieces)
    ensures ph.done + |pieces| <= |Plan(ph.job.stage)|
    ensures forall k :: 0 <= k < |pieces| ==> pieces[k] == Plan(ph.job.stage)[ph.done + k]
  {
    var plan := Plan(ph.job.stage);
    forall k | 0 <= k < |pieces| ensures pieces[k] == plan[ph.done + k] {
      assert plan[ph.done..ph.done + |pieces|][k] == plan[ph.done + k];
    }
  }

  /** Whether a piece can be settled does not depend on the pieces settled before it. */
  lemma SettlesLater(sha: Hash, universe: iset<Bytes>, s: Store, first: map<string, Bytes>,
                     write: Bytes -> Bytes, plan: seq<Bytes>, k: nat)
    requires CollisionFree(sha, universe) && Inv(sha, universe, s)
    requires s.phase.Copying? && plan == Plan(s.phase.job.stage) && k < |plan|
    requires Copied(sha, first, s.blocks, write, plan, k)
    ensures Settles(sha, s.blocks, write, plan[k]) <==> Settles(sha, first, write, plan[k])
  {
    hide LeafOk;
    hide Plan;
    var name := sha(plan[k]);
    assert plan[k] in plan;
    if name in s.blocks && name !in first {
      var i :| 0 <= i < k && name == sha(plan[i]);
      assert plan[i] in plan;
      assert Settles(sha, first, write, plan[i]) && Present(sha, s.blocks, plan[i]);
    }
  }
}

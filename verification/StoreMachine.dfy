/** The shared block store as a machine whose steps are single filesystem changes. A backup
    may be cut off after any of them, by a crash or by an exception. */
module StoreMachine {
  import opened Blocks
  import opened Json
  import opened Manifests
  import opened Wrappers

  /** The consistent local copy a backup works from. */
  datatype Stage = Stage(db: Bytes, config: Option<Bytes>)

  datatype Job = Job(source: SourceId, stage: Stage, retain: nat, application: string, userVersion: int, schema: Digest)

  /** A snapshot directory: its source and its creation time. */
  datatype Leaf = Leaf(source: SourceId, stamp: nat)

  function Files(stage: Stage): map<string, Bytes> {
    if stage.config.Some? then map[DATABASE := stage.db, CONFIG := stage.config.value] else map[DATABASE := stage.db]
  }

  /** All pieces of a stage in the order they are copied. */
  function Plan(stage: Stage): seq<Bytes> {
    Pieces(stage.db) + if stage.config.Some? then Pieces(stage.config.value) else []
  }

  function Entries(sha: Hash, stage: Stage): map<string, FileEntry> {
    map n | n in Files(stage) :: Entry(sha, Files(stage)[n])
  }

  function ManifestOf(sha: Hash, job: Job, added: nat, reused: nat): Manifest {
    var files := Entries(sha, job.stage);
    Manifest(job.application, job.userVersion, job.schema, job.source, files, LogicalBytes(files), added, reused)
  }

  // --- states -------------------------------------------------------------------

  datatype Phase =
    | Idle
    | Copying(job: Job, done: nat, added: nat, reused: nat)
    | Publishing(job: Job, leaf: Leaf, added: nat, reused: nat)
    | Selecting(job: Job, leaf: Leaf)
    | Pruning(job: Job, leaf: Leaf, doomed: seq<Leaf>)
    | Collecting(job: Job, leaf: Leaf, referenced: set<string>, left: set<string>)

  /** Block files by name, snapshot directories with the manifest they hold, what the
      running backup is doing, and (for the specification) what each leaf was made from. */
  datatype Store = Store(blocks: map<string, Bytes>, leaves: map<Leaf, Option<Json>>, phase: Phase, saved: map<Leaf, Stage>)

  const EmptyStore := Store(map[], map[], Idle, map[])

  /** The recognised manifest in a leaf, if there is one. */
  function At(leaves: map<Leaf, Option<Json>>, l: Leaf): Option<Manifest> {
    if l in leaves && leaves[l].Some? then Decode(leaves[l].value, Some(l.source)) else None
  }

  function Digests(m: Manifest): set<string> {
    set n, p | n in m.files && p in m.files[n].blocks :: p.sha256
  }

  /** Every digest some recognised manifest of any source mentions. */
  function Referenced(leaves: map<Leaf, Option<Json>>): set<string> {
    set l, d | l in leaves && At(leaves, l).Some? && d in Digests(At(leaves, l).value) :: d
  }

  function BlockNames(blocks: map<string, Bytes>): set<string> {
    set n | n in blocks && IsDigest(n)
  }

  /** The recognised leaves of a source, newest first. */
  ghost predicate NewestFirst(leaves: map<Leaf, Option<Json>>, source: SourceId, order: seq<Leaf>) {
    && (forall l :: l in order <==> l in leaves && l.source == source && At(leaves, l).Some?)
    && (forall i, j :: 0 <= i < j < |order| ==> order[i].stamp > order[j].stamp)
  }

  function Beyond(order: seq<Leaf>, retain: nat): seq<Leaf> {
    if |order| <= retain then [] else order[retain..]
  }

  // --- steps --------------------------------------------------------------------

  datatype Action =
    | Begin(job: Job)
    | Reuse
    | Publish(content: Bytes)
    | MakeLeaf(stamp: nat)
    | PutManifest
    | Select(order: seq<Leaf>)
    | DropManifest
    | DropLeaf
    | Survey
    | Unlink(name: string)
    | Finish
    | Abandon

  function Piece(phase: Phase): Bytes
    requires phase.Copying? && phase.done < |Plan(phase.job.stage)|
  {
    Plan(phase.job.stage)[phase.done]
  }

  /** The lock admits one backup at a time; leaf timestamps of a source increase. */
  ghost predicate Enabled(sha: Hash, s: Store, a: Action) {
    var ph := s.phase;
    match a
    case Begin(job) => ph.Idle? && job.retain > 0
    case Reuse =>
      ph.Copying? && ph.done < |Plan(ph.job.stage)|
      && sha(Piece(ph)) in s.blocks && sha(s.blocks[sha(Piece(ph))]) == sha(Piece(ph))
    case Publish(content) => ph.Copying? && ph.done < |Plan(ph.job.stage)| && sha(Piece(ph)) !in s.blocks
    case MakeLeaf(stamp) =>
      ph.Copying? && ph.done == |Plan(ph.job.stage)|
      && forall l :: l in s.leaves && l.source == ph.job.source ==> l.stamp < stamp
    case PutManifest => ph.Publishing?
    case Select(order) => ph.Selecting? && NewestFirst(s.leaves, ph.job.source, order)
    case DropManifest => ph.Pruning? && ph.doomed != [] && At(s.leaves, ph.doomed[0]).Some?
    case DropLeaf => ph.Pruning? && ph.doomed != [] && At(s.leaves, ph.doomed[0]).None?
    case Survey => ph.Pruning? && ph.doomed == []
    case Unlink(name) => ph.Collecting? && name in ph.left && name !in ph.referenced
    case Finish => ph.Collecting? && ph.left <= ph.referenced
    case Abandon => true
  }

  function Do(sha: Hash, s: Store, a: Action): Store
    requires Enabled(sha, s, a)
  {
    var ph := s.phase;
    match a
    case Begin(job) => s.(phase := Copying(job, 0, 0, 0))
    case Reuse => s.(phase := ph.(done := ph.done + 1, reused := ph.reused + |Piece(ph)|))
    case Publish(content) =>
      var name := sha(Piece(ph));
      s.(blocks := s.blocks[name := content],
         phase := if sha(content) == name then ph.(done := ph.done + 1, added := ph.added + |Piece(ph)|) else Idle)
    case MakeLeaf(stamp) =>
      var leaf := Leaf(ph.job.source, stamp);
      s.(leaves := s.leaves[leaf := None], phase := Publishing(ph.job, leaf, ph.added, ph.reused))
    case PutManifest =>
      s.(leaves := s.leaves[ph.leaf := Some(Encode(ManifestOf(sha, ph.job, ph.added, ph.reused)))],
         saved := s.saved[ph.leaf := ph.job.stage],
         phase := Selecting(ph.job, ph.leaf))
    case Select(order) => s.(phase := Pruning(ph.job, ph.leaf, Beyond(order, ph.job.retain)))
    case DropManifest => s.(leaves := s.leaves[ph.doomed[0] := None])
    case DropLeaf => s.(leaves := s.leaves - {ph.doomed[0]}, phase := ph.(doomed := ph.doomed[1..]))
    case Survey => s.(phase := Collecting(ph.job, ph.leaf, Referenced(s.leaves), BlockNames(s.blocks)))
    case Unlink(name) => s.(blocks := s.blocks - {name}, phase := ph.(left := ph.left - {name}))
    case Finish => s.(phase := Idle)
    case Abandon => s.(phase := Idle)
  }

  /** All byte strings a step brings in come from the universe. */
  ghost predicate Within(universe: iset<Bytes>, a: Action) {
    match a
    case Begin(job) => forall p :: p in Plan(job.stage) ==> p in universe
    case Publish(content) => content in universe
    case _ => true
  }

  ghost predicate EnabledRun(sha: Hash, universe: iset<Bytes>, s: Store, run: seq<Action>)
    decreases |run|
  {
    run == [] || (Enabled(sha, s, run[0]) && Within(universe, run[0]) && EnabledRun(sha, universe, Do(sha, s, run[0]), run[1..]))
  }

  ghost function DoAll(sha: Hash, universe: iset<Bytes>, s: Store, run: seq<Action>): Store
    requires EnabledRun(sha, universe, s, run)
    decreases |run|
  {
    if run == [] then s else DoAll(sha, universe, Do(sha, s, run[0]), run[1..])
  }

  // --- the invariant --------------------------------------------------------------

  predicate Present(sha: Hash, blocks: map<string, Bytes>, p: Bytes) {
    sha(p) in blocks && blocks[sha(p)] == p
  }

  ghost predicate Intact(sha: Hash, blocks: map<string, Bytes>, stage: Stage) {
    forall p :: p in Plan(stage) ==> Present(sha, blocks, p)
  }

  /** A recognised leaf describes its stage and all of its blocks are there, undamaged. */
  ghost predicate LeafOk(sha: Hash, s: Store, l: Leaf) {
    At(s.leaves, l).Some? ==>
      l in s.saved && At(s.leaves, l).value.files == Entries(sha, s.saved[l]) && Intact(sha, s.blocks, s.saved[l])
  }

  /** Leaf is the most recent directory of its source and belongs to the job. */
  ghost predicate Newest(leaves: map<Leaf, Option<Json>>, job: Job, leaf: Leaf) {
    && job.retain > 0 && leaf.source == job.source && leaf in leaves
    && forall l :: l in leaves && l.source == leaf.source && l != leaf ==> l.stamp < leaf.stamp
  }

  ghost predicate PhaseOk(sha: Hash, universe: iset<Bytes>, s: Store) {
    var ph := s.phase;
    match ph
    case Idle => true
    case Copying(job, done, added, reused) =>
      && job.retain > 0 && done <= |Plan(job.stage)|
      && (forall p :: p in Plan(job.stage) ==> p in universe)
      && (forall i :: 0 <= i < done ==> Present(sha, s.blocks, Plan(job.stage)[i]))
      && added + reused == Total(Plan(job.stage)[..done])
    case Publishing(job, leaf, added, reused) =>
      Newest(s.leaves, job, leaf) && s.leaves[leaf].None?
      && Intact(sha, s.blocks, job.stage) && added + reused == Total(Plan(job.stage))
    case Selecting(job, leaf) => Newest(s.leaves, job, leaf) && At(s.leaves, leaf).Some?
    case Pruning(job, leaf, doomed) =>
      && Newest(s.leaves, job, leaf) && At(s.leaves, leaf).Some?
      && (forall l :: l in doomed ==> l.source == job.source && l.stamp < leaf.stamp)
      && (forall i, j :: 0 <= i < j < |doomed| ==> doomed[i] != doomed[j])
    case Collecting(job, leaf, referenced, left) =>
      && Newest(s.leaves, job, leaf) && At(s.leaves, leaf).Some?
      && referenced == Referenced(s.leaves) && BlockNames(s.blocks) >= left >= BlockNames(s.blocks) - referenced
  }

  ghost predicate Inv(sha: Hash, universe: iset<Bytes>, s: Store) {
    && (forall n :: n in s.blocks ==> s.blocks[n] in universe)
    && (forall l {:trigger LeafOk(sha, s, l)} :: l in s.leaves ==> LeafOk(sha, s, l))
    && PhaseOk(sha, universe, s)
  }

  // --- the manifest that is written is recognised ----------------------------------

  lemma EntryIsWellFormed(sha: Hash, data: Bytes)
    ensures WellFormedEntry(Entry(sha, data))
  {
    PiecesJoin(data);
    RefTotalIsTotal(sha, Pieces(data));
    var e := Entry(sha, data);
    forall p | p in e.blocks ensures IsDigest(p.sha256) && p.size > 0 {
      var i :| 0 <= i < |e.blocks| && e.blocks[i] == p;
      assert Pieces(data)[i] in Pieces(data);
    }
  }

  lemma LogicalIsPlan(sha: Hash, stage: Stage)
    ensures LogicalBytes(Entries(sha, stage)) == Total(Plan(stage))
  {
    PiecesJoin(stage.db);
    if stage.config.Some? {
      PiecesJoin(stage.config.value);
      TotalAppend(Pieces(stage.db), Pieces(stage.config.value));
    } else {
      assert Plan(stage) == Pieces(stage.db);
    }
  }

  /** New plus reused bytes are the logical bytes, and the manifest a backup writes is always recognised. */
  lemma WrittenManifestIsRecognised(sha: Hash, job: Job, added: nat, reused: nat)
    requires added + reused == Total(Plan(job.stage))
    ensures var m := ManifestOf(sha, job, added, reused);
            Decode(Encode(m), Some(job.source)) == Some(m)
  {
    hide Decode;
    hide Encode;
    hide WellFormedEntry;
    hide Plan;
    hide Total;
    hide Entry;
    var m := ManifestOf(sha, job, added, reused);
    LogicalIsPlan(sha, job.stage);
    hide LogicalBytes;
    forall n | n in m.files ensures WellFormedEntry(m.files[n]) {
      EntryIsWellFormed(sha, Files(job.stage)[n]);
    }
    assert m.files.Keys == Files(job.stage).Keys == if job.stage.config.Some? then {DATABASE, CONFIG} else {DATABASE};
    DecodeEncode(m, Some(job.source));
  }

  lemma DigestsArePlan(sha: Hash, stage: Stage, m: Manifest)
    requires m.files == Entries(sha, stage)
    ensures forall d :: d in Digests(m) <==> exists p :: p in Plan(stage) && sha(p) == d
  {
    forall d | d in Digests(m) ensures exists p :: p in Plan(stage) && sha(p) == d {
      var n, r :| n in m.files && r in m.files[n].blocks && r.sha256 == d;
      var pieces := Pieces(Files(stage)[n]);
      var i :| 0 <= i < |pieces| && Refs(sha, pieces)[i] == r;
      assert pieces[i] in Plan(stage);
    }
    forall p | p in Plan(stage) ensures sha(p) in Digests(m) {
      var n := if p in Pieces(stage.db) then DATABASE else CONFIG;
      var pieces := Pieces(Files(stage)[n]);
      var i :| 0 <= i < |pieces| && pieces[i] == p;
      assert m.files[n] == Entry(sha, Files(stage)[n]);
      assert Refs(sha, pieces)[i] in m.files[n].blocks;
    }
  }
}

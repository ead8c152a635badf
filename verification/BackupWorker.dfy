/** The durable backup worker: read a generation, publish a snapshot, acknowledge that generation.
    Any number of workers, owner events and crashes interleave; the store's lock admits one backup. */
module BackupWorker {
  import opened Blocks
  import opened Json
  import opened Manifests
  import opened Restore
  import opened Retention
  import opened Snapshot
  import opened StoreMachine
  import opened StoreSafety
  import opened Wrappers

  const FALLBACK_SECONDS: nat := 15 * 60

  /** The row of backup_state. */
  datatype Row = Row(dirty: nat, acked: nat, success: Option<nat>)

  predicate Due(row: Row, now: nat) {
    row.success.None? || now - row.success.value >= FALLBACK_SECONDS
  }

  /** The conditional update that ends a successful run. */
  function Acknowledge(row: Row, g: nat, now: nat): Row {
    if row.acked < g then row.(acked := g, success := Some(now)) else row
  }

  datatype Pc = Ready | Checked(g: nat) | Saving(g: nat) | Published(g: nat)

  /** Who holds the store's lock: a worker of this home, or any other backup into the same store. */
  datatype Holder = Nobody | Worker(w: nat) | Other

  datatype World = World(row: Row, store: Store, holder: Holder, workers: map<nat, Pc>)

  /** What is fixed: the digest, the home's identity, and which generation a database file records. */
  datatype Site = Site(sha: Hash, universe: iset<Bytes>, source: SourceId, gen: Bytes -> nat)

  datatype Step =
    | Event
    | Wake(w: nat, now: nat)
    | Start(w: nat, job: Job)
    | StartOther(job: Job)
    | Disk(a: Action)
    | Stop(w: nat)
    | StopOther
    | Ack(w: nat, now: nat)

  function PcOf(world: World, w: nat): Pc {
    if w in world.workers then world.workers[w] else Ready
  }

  /** A backup of this home stages the database as it is now. */
  predicate StagesNow(site: Site, world: World, job: Job) {
    job.source == site.source ==> site.gen(job.stage.db) == world.row.dirty
  }

  ghost predicate CanStep(site: Site, world: World, step: Step) {
    match step
    case Event => true
    case Wake(w, _) => PcOf(world, w).Ready?
    case Start(w, job) =>
      && PcOf(world, w).Checked? && world.holder.Nobody? && job.source == site.source && StagesNow(site, world, job)
      && Enabled(site.sha, world.store, Begin(job)) && Within(site.universe, Begin(job))
    case StartOther(job) =>
      && world.holder.Nobody? && StagesNow(site, world, job)
      && Enabled(site.sha, world.store, Begin(job)) && Within(site.universe, Begin(job))
    case Disk(a) =>
      && !world.holder.Nobody? && !a.Begin? && !a.Abandon?
      && Enabled(site.sha, world.store, a) && Within(site.universe, a)
    case Stop(w) => true
    case StopOther => world.holder.Other?
    case Ack(w, _) => PcOf(world, w).Published?
  }

  /** What a worker does when its backup leaves the store: go on to acknowledge, or give up. */
  function Left(world: World, store: Store, finished: bool): World {
    if !store.phase.Idle? then world.(store := store)
    else if world.holder.Worker? then
      var pc := PcOf(world, world.holder.w);
      world.(store := store, holder := Nobody,
             workers := world.workers[world.holder.w := if finished && pc.Saving? then Published(pc.g) else Ready])
    else world.(store := store, holder := Nobody)
  }

  function Next(site: Site, world: World, step: Step): World
    requires CanStep(site, world, step)
  {
    match step
    case Event => world.(row := world.row.(dirty := world.row.dirty + 1))
    case Wake(w, now) =>
      if world.row.dirty <= world.row.acked && !Due(world.row, now) then world
      else world.(workers := world.workers[w := Checked(world.row.dirty)])
    case Start(w, job) =>
      world.(store := Do(site.sha, world.store, Begin(job)), holder := Worker(w),
             workers := world.workers[w := Saving(PcOf(world, w).g)])
    case StartOther(job) => world.(store := Do(site.sha, world.store, Begin(job)), holder := Other)
    case Disk(a) => Left(world, Do(site.sha, world.store, a), a.Finish?)
    case Stop(w) =>
      if world.holder == Worker(w) then Left(world, Do(site.sha, world.store, Abandon), false)
      else world.(workers := world.workers[w := Ready])
    case StopOther => Left(world, Do(site.sha, world.store, Abandon), false)
    case Ack(w, now) =>
      world.(row := Acknowledge(world.row, PcOf(world, w).g, now), workers := world.workers[w := Ready])
  }

  const Fresh := World(Row(0, 0, None), EmptyStore, Nobody, map[])

  ghost predicate CanRun(site: Site, world: World, run: seq<Step>)
    decreases |run|
  {
    run == [] || (CanStep(site, world, run[0]) && CanRun(site, Next(site, world, run[0]), run[1..]))
  }

  ghost function After(site: Site, world: World, run: seq<Step>): World
    requires CanRun(site, world, run)
    decreases |run|
  {
    if run == [] then world else After(site, Next(site, world, run[0]), run[1..])
  }

  // --- the invariant --------------------------------------------------------------

  /** Leaf l is the newest recognised snapshot of this home, and it captured generation g or a later one. */
  ghost predicate CoversBy(site: Site, s: Store, g: nat, l: Leaf) {
    && l in s.leaves && l.source == site.source && NewestRecognised(s.leaves, l)
    && l in s.saved && site.gen(s.saved[l].db) >= g
  }

  ghost predicate Covers(site: Site, s: Store, g: nat) {
    exists l: Leaf :: CoversBy(site, s, g, l)
  }

  /** No recognised snapshot of this home captured more than g. */
  ghost predicate CapturedAtMost(site: Site, s: Store, g: nat) {
    forall l :: l in s.leaves && l.source == site.source && At(s.leaves, l).Some? && l in s.saved ==> site.gen(s.saved[l].db) <= g
  }

  /** Until its manifest is out, a running backup of this home holds the latest capture. */
  ghost predicate LatestCapture(site: Site, s: Store, dirty: nat) {
    (s.phase.Copying? || s.phase.Publishing?) && s.phase.job.source == site.source ==>
      CapturedAtMost(site, s, site.gen(s.phase.job.stage.db)) && site.gen(s.phase.job.stage.db) <= dirty
  }

  ghost predicate PcOk(site: Site, world: World, w: nat) {
    var pc, ph := PcOf(world, w), world.store.phase;
    && (pc.Saving? <==> world.holder == Worker(w))
    && (!pc.Ready? ==> pc.g <= world.row.dirty)
    && (pc.Saving? ==> !ph.Idle? && ph.job.source == site.source && site.gen(ph.job.stage.db) >= pc.g)
    && (pc.Saving? && !ph.Copying? && !ph.Publishing? ==> Covers(site, world.store, pc.g))
    && (pc.Published? ==> Covers(site, world.store, pc.g))
  }

  ghost predicate Safe(site: Site, world: World) {
    && CollisionFree(site.sha, site.universe) && Inv(site.sha, site.universe, world.store)
    && world.row.acked <= world.row.dirty
    && (world.row.acked > 0 ==> Covers(site, world.store, world.row.acked))
    && CapturedAtMost(site, world.store, world.row.dirty)
    && LatestCapture(site, world.store, world.row.dirty)
    && (world.holder.Nobody? <==> world.store.phase.Idle?)
    && forall w: nat :: PcOk(site, world, w)
  }

  // --- store steps keep what is covered --------------------------------------------

  lemma CoverKept(site: Site, s: Store, a: Action, g: nat, dirty: nat)
    requires CollisionFree(site.sha, site.universe) && Inv(site.sha, site.universe, s)
    requires Enabled(site.sha, s, a) && Within(site.universe, a)
    requires LatestCapture(site, s, dirty) && Covers(site, s, g)
    ensures Covers(site, Do(site.sha, s, a), g)
  {
    hide At;
    hide LeafOk;
    hide Plan;
    hide ManifestOf;
    hide Referenced;
    hide CollisionFree;
    var l: Leaf :| CoversBy(site, s, g, l);
    var s' := Do(site.sha, s, a);
    NewestSurvives(site.sha, site.universe, s, a, l);
    if a.PutManifest? && s.phase.job.source == site.source {
      NewManifestCovers(site, s, g);
    } else {
      AtInLeaves(s'.leaves, l);
      assert CoversBy(site, s', g, l);
    }
  }

  lemma AtInLeaves(leaves: map<Leaf, Option<Json>>, l: Leaf)
    ensures At(leaves, l).Some? ==> l in leaves
  {
  }

  lemma NewManifestCovers(site: Site, s: Store, g: nat)
    requires CollisionFree(site.sha, site.universe) && Inv(site.sha, site.universe, s)
    requires Enabled(site.sha, s, PutManifest) && s.phase.job.source == site.source
    requires g <= site.gen(s.phase.job.stage.db)
    ensures Covers(site, Do(site.sha, s, PutManifest), g)
  {
    hide At;
    hide LeafOk;
    hide Plan;
    hide ManifestOf;
    hide Referenced;
    hide CollisionFree;
    var s' := Do(site.sha, s, PutManifest);
    StepKeepsInv(site.sha, site.universe, s, PutManifest);
    forall k: Leaf | k.source == s.phase.leaf.source && At(s'.leaves, k).Some? ensures k.stamp <= s.phase.leaf.stamp {
      AtInLeaves(s'.leaves, k);
    }
    assert CoversBy(site, s', g, s.phase.leaf);
  }

  /** No store step makes any snapshot capture more than it did; the new one captured what was staged. */
  lemma CaptureKept(site: Site, s: Store, a: Action, g: nat)
    requires Inv(site.sha, site.universe, s) && Enabled(site.sha, s, a) && CapturedAtMost(site, s, g)
    requires a.PutManifest? && s.phase.job.source == site.source ==> site.gen(s.phase.job.stage.db) <= g
    ensures CapturedAtMost(site, Do(site.sha, s, a), g)
  {
    hide Decode;
    hide Encode;
    hide LeafOk;
    hide Plan;
    hide ManifestOf;
    hide Referenced;
  }

  lemma CoverLess(site: Site, s: Store, g: nat, g': nat)
    requires Covers(site, s, g) && g' <= g
    ensures Covers(site, s, g')
  {
    var l: Leaf :| CoversBy(site, s, g, l);
    assert CoversBy(site, s, g', l);
  }

  lemma CaptureMore(site: Site, s: Store, g: nat, g': nat)
    requires CapturedAtMost(site, s, g) && g <= g'
    ensures CapturedAtMost(site, s, g')
  {
  }

  // --- every step of every interleaving is safe -------------------------------------

  /** One step of whoever holds the lock: all that the steps of the store can do to the invariant. */
  lemma StoreStepKeeps(site: Site, world: World, a: Action)
    requires Safe(site, world) && !world.holder.Nobody?
    requires !a.Begin? && Enabled(site.sha, world.store, a) && Within(site.universe, a)
    ensures var s, s' := world.store, Do(site.sha, world.store, a);
            && Inv(site.sha, site.universe, s')
            && CapturedAtMost(site, s', world.row.dirty) && LatestCapture(site, s', world.row.dirty)
            && (forall g: nat :: Covers(site, s, g) ==> Covers(site, s', g))
            && (!s'.phase.Idle? ==> s'.phase.job == s.phase.job)
            && (!s'.phase.Idle? && !s'.phase.Copying? && !s'.phase.Publishing? && s.phase.job.source == site.source ==>
                  (s.phase.Copying? || s.phase.Publishing? ==> Covers(site, s', site.gen(s.phase.job.stage.db))))
  {
    hide At;
    hide LeafOk;
    hide Plan;
    hide ManifestOf;
    hide Referenced;
    hide CollisionFree;
    hide Inv;
    hide Covers;
    hide CapturedAtMost;
    hide PcOk;
    var s, s', dirty := world.store, Do(site.sha, world.store, a), world.row.dirty;
    StepKeepsInv(site.sha, site.universe, s, a);
    CaptureKept(site, s, a, dirty);
    if s.phase.job.source == site.source && (s'.phase.Copying? || s'.phase.Publishing?) {
      CaptureKept(site, s, a, site.gen(s.phase.job.stage.db));
    }
    forall g: nat | Covers(site, s, g) ensures Covers(site, s', g) {
      CoverKept(site, s, a, g, dirty);
    }
    if a.PutManifest? && s.phase.job.source == site.source {
      NewManifestCovers(site, s, site.gen(s.phase.job.stage.db));
    }
  }

  lemma LeftSafe(site: Site, world: World, a: Action, finished: bool)
    requires Safe(site, world) && !world.holder.Nobody?
    requires !a.Begin? && Enabled(site.sha, world.store, a) && Within(site.universe, a)
    requires finished ==> a.Finish?
    ensures Safe(site, Left(world, Do(site.sha, world.store, a), finished))
  {
    StoreStepKeeps(site, world, a);
    hide At;
    hide CollisionFree;
    hide Inv;
    hide Covers;
    hide CapturedAtMost;
    hide LatestCapture;
    hide Enabled;
    hide PcOk;
    var store' := Do(site.sha, world.store, a);
    assert finished ==> store'.phase.Idle? && world.store.phase.Collecting? by { FinishEnds(site, world.store, a); }
    hide Do;
    var world' := Left(world, store', finished);
    forall w: nat ensures PcOk(site, world', w) {
      assert PcOk(site, world, w);
      PcLeft(site, world, store', finished, w);
    }
  }

  lemma PcLeft(site: Site, world: World, store': Store, finished: bool, w: nat)
    requires PcOk(site, world, w) && !world.holder.Nobody?
    requires finished ==> store'.phase.Idle? && world.store.phase.Collecting?
    requires forall g: nat :: Covers(site, world.store, g) ==> Covers(site, store', g)
    requires !world.store.phase.Idle?
    requires !store'.phase.Idle? ==> store'.phase.job == world.store.phase.job
    requires !store'.phase.Idle? && !store'.phase.Copying? && !store'.phase.Publishing? && world.store.phase.job.source == site.source ==>
               (world.store.phase.Copying? || world.store.phase.Publishing? ==>
                  Covers(site, store', site.gen(world.store.phase.job.stage.db)))
    ensures PcOk(site, Left(world, store', finished), w)
  {
    hide Covers;
    var pc := PcOf(world, w);
    if pc.Saving? && !store'.phase.Idle? && Covers(site, store', site.gen(world.store.phase.job.stage.db)) {
      CoverLess(site, store', site.gen(world.store.phase.job.stage.db), pc.g);
    }
  }

  lemma FinishEnds(site: Site, s: Store, a: Action)
    requires Enabled(site.sha, s, a)
    ensures a.Finish? ==> s.phase.Collecting? && Do(site.sha, s, a).phase.Idle?
  {
  }

  lemma BeginSafe(site: Site, world: World, step: Step)
    requires Safe(site, world) && CanStep(site, world, step) && (step.Start? || step.StartOther?)
    ensures Safe(site, Next(site, world, step))
  {
    hide At;
    hide LeafOk;
    hide Plan;
    hide CollisionFree;
    var world' := Next(site, world, step);
    StepKeepsInv(site.sha, site.universe, world.store, Begin(step.job));
    hide Inv;
    assert CapturedAtMost(site, world'.store, world.row.dirty);
    forall g: nat | Covers(site, world.store, g) ensures Covers(site, world'.store, g) {
      var l: Leaf :| CoversBy(site, world.store, g, l);
      assert CoversBy(site, world'.store, g, l);
    }
    hide Covers;
    hide CapturedAtMost;
    forall w: nat ensures PcOk(site, world', w) {
      assert PcOk(site, world, w);
    }
  }

  lemma EventSafe(site: Site, world: World)
    requires Safe(site, world)
    ensures Safe(site, Next(site, world, Event))
  {
    hide Inv;
    hide Covers;
    var world' := Next(site, world, Event);
    CaptureMore(site, world.store, world.row.dirty, world'.row.dirty);
    hide CapturedAtMost;
    forall w: nat ensures PcOk(site, world', w) {
      assert PcOk(site, world, w);
    }
  }

  lemma WorkerSafe(site: Site, world: World, step: Step)
    requires Safe(site, world) && CanStep(site, world, step)
    requires step.Wake? || step.Ack? || (step.Stop? && world.holder != Worker(step.w))
    ensures Safe(site, Next(site, world, step))
  {
    hide Inv;
    hide Covers;
    hide CapturedAtMost;
    hide LatestCapture;
    var world' := Next(site, world, step);
    assert PcOk(site, world, step.w);
    forall w: nat ensures PcOk(site, world', w) {
      assert PcOk(site, world, w);
    }
  }

  lemma StepSafe(site: Site, world: World, step: Step)
    requires Safe(site, world) && CanStep(site, world, step)
    ensures Safe(site, Next(site, world, step))
    ensures Next(site, world, step).row.acked >= world.row.acked
    ensures Next(site, world, step).row.dirty >= world.row.dirty
  {
    hide Safe;
    match step
    case Event => EventSafe(site, world);
    case Wake(_, _) => WorkerSafe(site, world, step);
    case Start(_, _) => BeginSafe(site, world, step);
    case StartOther(_) => BeginSafe(site, world, step);
    case Disk(a) => LeftSafe(site, world, a, a.Finish?);
    case Stop(w) =>
      if world.holder == Worker(w) { LeftSafe(site, world, Abandon, false); } else { WorkerSafe(site, world, step); }
    case StopOther => LeftSafe(site, world, Abandon, false);
    case Ack(_, _) => WorkerSafe(site, world, step);
  }

  lemma {:induction false} RunSafe(site: Site, world: World, run: seq<Step>)
    requires Safe(site, world) && CanRun(site, world, run)
    ensures Safe(site, After(site, world, run))
    ensures After(site, world, run).row.acked >= world.row.acked
    ensures After(site, world, run).row.dirty >= world.row.dirty
    decreases |run|
  {
    hide Safe;
    hide CanStep;
    hide Next;
    if run != [] {
      StepSafe(site, world, run[0]);
      RunSafe(site, Next(site, world, run[0]), run[1..]);
    }
  }

  lemma FreshSafe(site: Site)
    requires CollisionFree(site.sha, site.universe)
    ensures Safe(site, Fresh)
  {
    assert forall w: nat :: PcOk(site, Fresh, w);
  }

  /** Over every interleaving of owner events, workers, other backups and crashes: what is acknowledged
      never exceeds what is dirty and never goes back, and once anything is acknowledged the newest
      recognised snapshot of the home restores a database that had reached the acknowledged generation. */
  lemma AcknowledgedIsRestorable(site: Site, run: seq<Step>, more: seq<Step>)
    requires CollisionFree(site.sha, site.universe) && CanRun(site, Fresh, run)
    requires CanRun(site, After(site, Fresh, run), more)
    ensures var before, now := After(site, Fresh, run), After(site, After(site, Fresh, run), more);
            && before.row.acked <= now.row.acked <= now.row.dirty
            && (now.row.acked > 0 ==>
                  exists l: Leaf :: RestoresAtLeast(site, now.store, now.row.acked, l))
  {
    FreshSafe(site);
    hide Safe;
    RunSafe(site, Fresh, run);
    RunSafe(site, After(site, Fresh, run), more);
    var now := After(site, After(site, Fresh, run), more);
    SafeRestores(site, now);
  }

  /** The newest recognised snapshot of the home materialises, and the database in it records g or later. */
  ghost predicate RestoresAtLeast(site: Site, s: Store, g: nat, l: Leaf) {
    && l in s.leaves && l.source == site.source && NewestRecognised(s.leaves, l)
    && s.leaves[l].Some?
    && var files := Materialize(site.sha, s.blocks, s.leaves[l].value);
    files.Some? && Manifests.DATABASE in files.value && site.gen(files.value[Manifests.DATABASE]) >= g
  }

  lemma SafeRestores(site: Site, world: World)
    requires Safe(site, world)
    ensures world.row.acked <= world.row.dirty
    ensures world.row.acked > 0 ==> exists l: Leaf :: RestoresAtLeast(site, world.store, world.row.acked, l)
  {
    hide Inv;
    hide Materialize;
    hide CapturedAtMost;
    hide Decode;
    if world.row.acked > 0 {
      var l: Leaf :| CoversBy(site, world.store, world.row.acked, l);
      RecognisedLeafRestores(site.sha, site.universe, world.store, l);
      assert RestoresAtLeast(site, world.store, world.row.acked, l);
    }
  }

  /** An acknowledgement covers what its worker had read, never an event that came later; and the row
      is left alone, fallback time included, exactly when the generation did not advance. */
  lemma AckCoversTheRead(site: Site, world: World, w: nat, now: nat)
    requires Safe(site, world) && CanStep(site, world, Ack(w, now))
    ensures var g, row, row' := PcOf(world, w).g, world.row, Next(site, world, Ack(w, now)).row;
            && row'.acked == (if row.acked < g then g else row.acked) && row'.dirty == row.dirty >= g
            && (row.dirty > g && row.dirty > row.acked ==> row'.dirty > row'.acked)
            && (row' == row <==> row.acked >= g)
            && (Due(row, now) ==> (Due(row', now) <==> row.acked >= g))
  {
    assert PcOk(site, world, w);
  }

  /** The worker's procedure on the home it serves, with `early` owner events before the database is
      staged and `late` ones afterwards. */
  class Home {
    const source: SourceId
    var row: Row

    constructor (source: SourceId)
      ensures this.source == source && row == Row(0, 0, None)
    {
      this.source := source;
      row := Row(0, 0, None);
    }

    method Dirty(times: nat)
      modifies this
      ensures row == old(row).(dirty := old(row.dirty) + times)
    {
      row := row.(dirty := row.dirty + times);
    }

    method RunOnce(store: BlockStore, mounted: bool, stage: Stage, early: nat, late: nat, retain: int,
                   application: string, userVersion: int, schema: Digest, now: nat, stamp: nat, write: Bytes -> Bytes,
                   ghost gen: Bytes -> nat)
      returns (attempted: bool)
      requires store.Valid() && store.now.phase.Idle?
      requires forall l :: l in store.leaves && l.source == source ==> l.stamp < stamp
      requires forall p :: p in Plan(stage) ==> p in store.universe && write(p) in store.universe
      requires gen(stage.db) == row.dirty + early
      modifies this, store
      ensures store.Valid() && store.now.phase.Idle? && old(store.log) <= store.log
      ensures attempted <==>
                mounted && (old(row.dirty) > old(row.acked) || old(row.success).None? || now - old(row.success).value >= 900)
      ensures row.dirty == old(row.dirty) + if attempted then early + late else 0
      ensures var saved := retain > 0 && forall p :: p in Plan(stage) ==> Settles(store.sha, old(store.blocks), write, p);
              && (row.acked == if attempted && saved && old(row.dirty) > old(row.acked) then old(row.dirty) else old(row.acked))
              && (row.success == if row.acked != old(row.acked) then Some(now) else old(row.success))
              && (attempted && saved ==> Restorable(store.sha, store.blocks, store.leaves, Leaf(source, stamp), stage))
              && (attempted && saved ==>
                    store.leaves == Retained(old(store.leaves)[Leaf(source, stamp) := store.leaves[Leaf(source, stamp)]], source, retain)
                    && Describes(store.leaves[Leaf(source, stamp)].value, store.sha, source, stage, application, userVersion, schema,
                                 NewBytes(store.sha, old(store.blocks), Plan(stage))))
              && (row.acked != old(row.acked) ==> attempted && saved && row.acked <= gen(stage.db))
              && (!(attempted && saved) ==> store.leaves == old(store.leaves))
    {
      hide Materialize;
      hide Plan;
      hide Settles;
      hide Files;
      hide Encode;
      hide Referenced;
      hide Inv;
      hide DoAll;
      hide EnabledRun;
      hide Describes;
      hide Retained;
      if !mounted { return false; }
      var generation := row.dirty;
      if generation <= row.acked && !Due(row, now) { return false; }
      attempted := true;
      Dirty(early);
      var r, _, _ := store.IncrementalBackup(source, stage, retain, application, userVersion, schema, stamp, write);
      Dirty(late);
      if r.Ok? { row := Acknowledge(row, generation, now); }
    }
  }

  predicate Restorable(sha: Hash, blocks: map<string, Bytes>, leaves: map<Leaf, Option<Json>>, l: Leaf, stage: Stage) {
    l in leaves && leaves[l].Some? && Materialize(sha, blocks, leaves[l].value) == Some(Files(stage))
  }
}

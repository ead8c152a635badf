/** Where a task's status comes from, over every run: turns may be cut off after any commit, blocked
    tasks may be retried and interrupted runs recovered. Nothing here needs an invariant of the state. */
module Provenance {
  import opened Lifecycle
  import opened Tasks
  import opened Wrappers

  // --- what a list of commits can do ---------------------------------------------------

  /** The commit gives task t this status. */
  predicate Sets(w: Write, t: string, status: Status) {
    (w == SetStatus(t, status)) || (w.Reopen? && w.t == t && status == InProgress) || (w == Activate(t) && status == InProgress)
  }

  predicate StatusIs(db: Db, t: string, status: Status) {
    t in db.tasks && db.tasks[t].status == status
  }

  lemma {:induction false} StatusComesFrom(db: Db, ws: seq<Write>, t: string, status: Status)
    requires StatusIs(ApplyAll(db, ws), t, status) && !StatusIs(db, t, status)
    ensures exists w :: w in ws && Sets(w, t, status)
    decreases |ws|
  {
    if ws != [] {
      assert ws[0] in ws;
      if !Sets(ws[0], t, status) {
        assert !StatusIs(Apply(db, ws[0]), t, status);
        StatusComesFrom(Apply(db, ws[0]), ws[1..], t, status);
        var w :| w in ws[1..] && Sets(w, t, status);
        assert w in ws;
      }
    }
  }

  lemma {:induction false} AgentComesFrom(db: Db, ws: seq<Write>, a: AgentId)
    requires a in ApplyAll(db, ws).agents && a !in db.agents
    ensures exists w :: w in ws && (w == AddCritic(a) || (w.Activate? && a == Worker(w.t)))
    decreases |ws|
  {
    if ws != [] {
      assert ws[0] in ws;
      if a !in Apply(db, ws[0]).agents {
        AgentComesFrom(Apply(db, ws[0]), ws[1..], a);
        var w :| w in ws[1..] && (w == AddCritic(a) || (w.Activate? && a == Worker(w.t)));
        assert w in ws;
      }
    }
  }

  lemma {:induction false} RowsStay(db: Db, ws: seq<Write>)
    ensures ApplyAll(db, ws).tasks.Keys == db.tasks.Keys && db.agents.Keys <= ApplyAll(db, ws).agents.Keys
    decreases |ws|
  {
    if ws != [] { RowsStay(Apply(db, ws[0]), ws[1..]); }
  }

  /** The turn in which a critic's pass was followed by a successful integration. */
  predicate Accepts(step: Step, c: AgentId) {
    step.Turn? && step.a == c && c.Critic? && step.session.outcome == Finished(Pass) && step.session.integration == Commit
  }

  /** The turn in which a worker reported done with commits and every check passing. */
  predicate Submits(step: Step, t: string) {
    step.Turn? && step.a == Worker(t) && step.session.outcome.Finished? && step.session.commits == Yes && step.session.checks == Yes
  }

  /** A commit that neither accepts nor adds anything, touches no other task, and starts or speaks for no
      other agent than the one whose turn it is and the task's worker. */
  predicate Tame(w: Write, a: AgentId) {
    && !w.AddCritic? && !w.Activate? && (w.SetStatus? ==> w.status != Done && w.status != Cancelled)
    && (w.SetStatus? || w.Reopen? || w.SetAttempts? ==> w.t == a.task)
    && (w.SetState? ==> w.a == a || w.a == Worker(a.task)) && (w.Ask? ==> w.a == a)
  }

  predicate AllTame(ws: seq<Write>, a: AgentId) {
    forall w :: w in ws ==> Tame(w, a)
  }

  lemma RoutineTame(cfg: Config, attempts: nat, a: AgentId, attempt: bool)
    ensures AllTame(Block(a.task, a), a) && AllTame(OnYield(a), a)
    ensures AllTame(OnFail(cfg, a.task, attempts, a), a) && AllTame(ReworkWrites(cfg, a.task, attempts, a, attempt), a)
  {
  }

  /** A turn's commits are tame, except the acceptance and the new critic. */
  lemma TurnWritesAre(cfg: Config, db: Db, a: AgentId, s: Session, w: Write)
    requires a in db.agents && a.task in db.tasks && w in TurnWrites(cfg, db, a, s)
    ensures Tame(w, a) || (w == SetStatus(a.task, Done) && Accepts(Turn(a, s, 0), a))
            || (w.AddCritic? && w.a.Critic? && w.a.task == a.task && w.a !in db.agents && Submits(Turn(a, s, 0), a.task))
  {
    hide Reviews;
    var attempts := db.tasks[a.task].attempts;
    RoutineTame(cfg, attempts, a, true);
    RoutineTame(cfg, attempts, a, false);
    hide Block;
    hide OnFail;
    hide ReworkWrites;
    hide OnYield;
  }

  function Made(cfg: Config, db: Db, step: Step): seq<Write>
    requires step.Turn? && Enabled(db, step)
  {
    var ws := TurnWrites(cfg, db, step.a, step.session);
    if step.cut < |ws| then ws[..step.cut] else ws
  }

  lemma MadeAre(cfg: Config, db: Db, step: Step, w: Write)
    requires step.Turn? && Enabled(db, step) && w in Made(cfg, db, step)
    ensures w in TurnWrites(cfg, db, step.a, step.session)
  {
    hide TurnWrites;
  }

  // --- what a single step can do -----------------------------------------------------------

  /** A task becomes done only by an accepting turn of one of its critics; done is left only by
      rollback, and cancelled only by requeue. */
  lemma StatusMoves(cfg: Config, db: Db, step: Step, t: string)
    requires Enabled(db, step) && t in db.tasks
    ensures var db' := Next(cfg, db, step);
            && t in db'.tasks
            && (!StatusIs(db, t, Done) && StatusIs(db', t, Done) ==> step.Turn? && step.a.task == t && step.a in db.agents && Accepts(step, step.a))
            && (StatusIs(db, t, Done) && !StatusIs(db', t, Done) ==> step == Rollback(t))
            && (StatusIs(db, t, Cancelled) && !StatusIs(db', t, Cancelled) ==> step.Requeue? && step.t == t)
  {
    if step.Turn? {
      TurnStatusMoves(cfg, db, step, t);
    }
  }

  lemma TurnStatusMoves(cfg: Config, db: Db, step: Step, t: string)
    requires step.Turn? && Enabled(db, step) && t in db.tasks
    ensures var db' := Next(cfg, db, step);
            && t in db'.tasks
            && (db'.tasks[t].status != db.tasks[t].status ==> t == step.a.task)
            && (!StatusIs(db, t, Done) && StatusIs(db', t, Done) ==> Accepts(step, step.a))
  {
    var db', ws := Next(cfg, db, step), Made(cfg, db, step);
    assert db' == ApplyAll(db, ws);
    RowsStay(db, ws);
    if db'.tasks[t].status != db.tasks[t].status {
      StatusComesFrom(db, ws, t, db'.tasks[t].status);
      var w :| w in ws && Sets(w, t, db'.tasks[t].status);
      MadeAre(cfg, db, step, w);
      TurnWritesAre(cfg, db, step.a, step.session, w);
    }
  }

  /** A critic appears only in a submitting turn of its task's worker, a worker only when its task is spawned. */
  lemma AgentsAppear(cfg: Config, db: Db, step: Step, a: AgentId)
    requires Enabled(db, step) && a !in db.agents && a in Next(cfg, db, step).agents
    ensures if a.Worker? then step == Spawn(a.task) && Ready(db.tasks, a.task)
            else Submits(step, a.task) && Worker(a.task) in db.agents
  {
    if step.Turn? {
      var ws := Made(cfg, db, step);
      assert Next(cfg, db, step) == ApplyAll(db, ws);
      AgentComesFrom(db, ws, a);
      var w :| w in ws && (w == AddCritic(a) || (w.Activate? && a == Worker(w.t)));
      MadeAre(cfg, db, step, w);
      TurnWritesAre(cfg, db, step.a, step.session, w);
    }
  }

  // --- whole runs ---------------------------------------------------------------------------

  /** The state after the first k steps. */
  function At(cfg: Config, db: Db, run: seq<Step>, k: nat): Db
    requires CanRun(cfg, db, run) && k <= |run|
    decreases k
  {
    if k == 0 then db else At(cfg, Next(cfg, db, run[0]), run[1..], k - 1)
  }

  lemma {:induction false} AtNext(cfg: Config, db: Db, run: seq<Step>, k: nat)
    requires CanRun(cfg, db, run) && k < |run|
    ensures Enabled(At(cfg, db, run, k), run[k])
    ensures At(cfg, db, run, k + 1) == Next(cfg, At(cfg, db, run, k), run[k])
    decreases k
  {
    hide Enabled;
    hide Next;
    if k > 0 { AtNext(cfg, Next(cfg, db, run[0]), run[1..], k - 1); }
  }

  lemma {:induction false} AtEnd(cfg: Config, db: Db, run: seq<Step>)
    requires CanRun(cfg, db, run)
    ensures At(cfg, db, run, |run|) == After(cfg, db, run)
    decreases |run|
  {
    hide Enabled;
    hide Next;
    if run != [] { AtEnd(cfg, Next(cfg, db, run[0]), run[1..]); }
  }

  /** Step k spawned the task at a moment when all its dependencies were accepted. */
  ghost predicate SpawnedAt(cfg: Config, run: seq<Step>, t: string, k: nat)
    requires CanRun(cfg, EmptyDb, run)
  {
    && k < |run| && run[k] == Spawn(t) && t in At(cfg, EmptyDb, run, k).tasks
    && forall d :: d in At(cfg, EmptyDb, run, k).tasks[t].deps ==> StatusIs(At(cfg, EmptyDb, run, k), d, Done)
  }

  /** Step k created the critic: the task's worker had submitted. */
  ghost predicate CreatedAt(cfg: Config, run: seq<Step>, c: AgentId, k: nat)
    requires CanRun(cfg, EmptyDb, run)
  {
    && k < |run| && Submits(run[k], c.task) && c !in At(cfg, EmptyDb, run, k).agents
    && c in At(cfg, EmptyDb, run, k + 1).agents
  }

  lemma {:induction false} CriticWasCreated(cfg: Config, run: seq<Step>, c: AgentId, n: nat) returns (j: nat)
    requires CanRun(cfg, EmptyDb, run) && n <= |run| && c.Critic? && c in At(cfg, EmptyDb, run, n).agents
    ensures j < n && CreatedAt(cfg, run, c, j)
    decreases n
  {
    hide Enabled;
    hide Next;
    hide CanRun;
    var db := At(cfg, EmptyDb, run, n - 1);
    AtNext(cfg, EmptyDb, run, n - 1);
    if c in db.agents {
      j := CriticWasCreated(cfg, run, c, n - 1);
    } else {
      AgentsAppear(cfg, db, run[n - 1], c);
      j := n - 1;
    }
  }

  lemma AgentsStay(cfg: Config, db: Db, step: Step)
    requires Enabled(db, step)
    ensures db.agents.Keys <= Next(cfg, db, step).agents.Keys
  {
    if step.Turn? { RowsStay(db, Made(cfg, db, step)); }
  }

  lemma {:induction false} CriticStays(cfg: Config, run: seq<Step>, c: AgentId, m: nat, n: nat)
    requires CanRun(cfg, EmptyDb, run) && m <= n <= |run| && c in At(cfg, EmptyDb, run, m).agents
    ensures c in At(cfg, EmptyDb, run, n).agents
    decreases n - m
  {
    hide CanRun;
    hide Next;
    hide Enabled;
    if m < n {
      CriticStays(cfg, run, c, m, n - 1);
      AtNext(cfg, EmptyDb, run, n - 1);
      AgentsStay(cfg, At(cfg, EmptyDb, run, n - 1), run[n - 1]);
    }
  }

  // --- what a requeue puts to rest --------------------------------------------------------------

  /** The commit may start the agent or speak for it. */
  predicate Rouses(w: Write, b: AgentId) {
    (w.SetState? && w.a == b) || w == AddCritic(b) || (w.Activate? && b == Worker(w.t)) || w == Ask(b)
  }

  /** The agent cannot run, and no answer can start it. */
  predicate Quiet(db: Db, b: AgentId) {
    !IsRunnable(db, b) && forall q: nat :: q < |db.questions| && db.questions[q].open ==> db.questions[q].sender != b
  }

  lemma {:induction false} QuietStays(db: Db, ws: seq<Write>, b: AgentId)
    requires Quiet(db, b) && forall w :: w in ws ==> !Rouses(w, b)
    ensures Quiet(ApplyAll(db, ws), b)
    decreases |ws|
  {
    if ws != [] {
      assert ws[0] in ws;
      assert Quiet(Apply(db, ws[0]), b);
      hide Apply;
      QuietStays(Apply(db, ws[0]), ws[1..], b);
    }
  }

  /** A turn rouses its own agent, the task's worker and at most a critic that was not there before. */
  lemma TurnRousesOwn(cfg: Config, db: Db, step: Step, b: AgentId)
    requires step.Turn? && Enabled(db, step) && Quiet(db, b)
    requires b.task != step.a.task || (b.Critic? && b in db.agents)
    ensures Quiet(Next(cfg, db, step), b)
  {
    var ws := Made(cfg, db, step);
    assert Next(cfg, db, step) == ApplyAll(db, ws);
    hide Next;
    forall w | w in ws ensures !Rouses(w, b) {
      MadeAre(cfg, db, step, w);
      TurnWritesAre(cfg, db, step.a, step.session, w);
    }
    hide Made;
    QuietStays(db, ws, b);
  }

  /** Nothing of the task can run, and only a spawn can change that. */
  ghost predicate Asleep(db: Db, t: string) {
    (t in db.tasks ==> db.tasks[t].status in {Queued, Cancelled}) && forall b: AgentId :: b.task == t ==> Quiet(db, b)
  }

  lemma RequeuePutsToSleep(cfg: Config, db: Db, t: string, budget: Option<int>)
    requires Enabled(db, Requeue(t, budget))
    ensures Asleep(Next(cfg, db, Requeue(t, budget)), t)
  {
  }

  lemma SleepsUntilSpawn(cfg: Config, db: Db, step: Step, t: string)
    requires Enabled(db, step) && Asleep(db, t) && step != Spawn(t)
    ensures Asleep(Next(cfg, db, step), t)
  {
    if step.Turn? {
      assert Quiet(db, step.a) <== step.a.task == t;
      if t in db.tasks { TurnStatusMoves(cfg, db, step, t); } else { RowsStay(db, Made(cfg, db, step)); }
      forall b: AgentId | b.task == t ensures Quiet(Next(cfg, db, step), b) { TurnRousesOwn(cfg, db, step, b); }
    } else {
      forall b: AgentId | b.task == t ensures Quiet(Next(cfg, db, step), b) { assert Quiet(db, b); }
    }
  }

  /** A critic that was put to rest never runs again: later reviews get new critics. */
  lemma CriticRests(cfg: Config, db: Db, step: Step, c: AgentId)
    requires Enabled(db, step) && c.Critic? && c in db.agents && Quiet(db, c)
    ensures c in Next(cfg, db, step).agents && Quiet(Next(cfg, db, step), c)
  {
    AgentsStay(cfg, db, step);
    if step.Turn? { TurnRousesOwn(cfg, db, step, c); }
  }

  /** The owner does not requeue the task after step k and before step n. */
  predicate NoRequeue(run: seq<Step>, t: string, k: nat, n: nat) {
    n <= |run| && forall m :: k < m < n ==> !(run[m].Requeue? && run[m].t == t)
  }

  lemma {:induction false} WokenBySpawn(cfg: Config, run: seq<Step>, t: string, n: nat) returns (k: nat)
    requires CanRun(cfg, EmptyDb, run) && n <= |run| && !Asleep(At(cfg, EmptyDb, run, n), t)
    ensures k < n && SpawnedAt(cfg, run, t, k) && NoRequeue(run, t, k, n)
    decreases n
  {
    hide CanRun;
    if n > 0 {
      var db := At(cfg, EmptyDb, run, n - 1);
      AtNext(cfg, EmptyDb, run, n - 1);
      hide Next;
      if Asleep(db, t) {
        if run[n - 1] != Spawn(t) { SleepsUntilSpawn(cfg, db, run[n - 1], t); }
        k := n - 1;
      } else {
        hide Asleep;
        k := WokenBySpawn(cfg, run, t, n - 1);
        if run[n - 1].Requeue? && run[n - 1].t == t { RequeuePutsToSleep(cfg, db, t, run[n - 1].budget); }
      }
    }
  }

  /** No session of a task starts unless, since the task was last requeued, it was spawned at a moment when all
      its dependencies were accepted. */
  lemma NoRunBeforeSpawn(cfg: Config, run: seq<Step>, i: nat) returns (k: nat)
    requires CanRun(cfg, EmptyDb, run) && i < |run| && run[i].Turn?
    ensures k < i && SpawnedAt(cfg, run, run[i].a.task, k) && NoRequeue(run, run[i].a.task, k, i)
  {
    hide Next;
    hide CanRun;
    AtNext(cfg, EmptyDb, run, i);
    assert !Quiet(At(cfg, EmptyDb, run, i), run[i].a);
    k := WokenBySpawn(cfg, run, run[i].a.task, i);
  }

  lemma {:induction false} RestsForGood(cfg: Config, run: seq<Step>, c: AgentId, m: nat, n: nat)
    requires CanRun(cfg, EmptyDb, run) && m <= n <= |run| && c.Critic?
    requires c in At(cfg, EmptyDb, run, m).agents && Quiet(At(cfg, EmptyDb, run, m), c)
    ensures c in At(cfg, EmptyDb, run, n).agents && Quiet(At(cfg, EmptyDb, run, n), c)
    decreases n - m
  {
    hide CanRun;
    hide Next;
    hide Enabled;
    if m < n {
      RestsForGood(cfg, run, c, m, n - 1);
      AtNext(cfg, EmptyDb, run, n - 1);
      CriticRests(cfg, At(cfg, EmptyDb, run, n - 1), run[n - 1], c);
    }
  }

  /** A critic that runs was created since the task was last requeued, by a worker spawned since then. */
  lemma CriticIsCurrent(cfg: Config, run: seq<Step>, i: nat) returns (j: nat, k: nat)
    requires CanRun(cfg, EmptyDb, run) && i < |run| && run[i].Turn? && run[i].a.Critic?
    ensures var c := run[i].a;
            k < j < i && CreatedAt(cfg, run, c, j) && SpawnedAt(cfg, run, c.task, k) && NoRequeue(run, c.task, k, i)
  {
    hide Next;
    hide CanRun;
    var c := run[i].a;
    AtNext(cfg, EmptyDb, run, i);
    j := CriticWasCreated(cfg, run, c, i);
    k := NoRunBeforeSpawn(cfg, run, j);
    forall m | j < m < i ensures !(run[m].Requeue? && run[m].t == c.task) {
      if run[m].Requeue? && run[m].t == c.task {
        AtNext(cfg, EmptyDb, run, m);
        var db := At(cfg, EmptyDb, run, m);
        RequeuePutsToSleep(cfg, db, c.task, run[m].budget);
        CriticStays(cfg, run, c, j + 1, m + 1);
        RestsForGood(cfg, run, c, m + 1, i);
      }
    }
  }

  /** Step i accepted the task, and it has been done ever since. */
  ghost predicate AcceptedAt(cfg: Config, run: seq<Step>, t: string, c: AgentId, i: nat, n: nat)
    requires CanRun(cfg, EmptyDb, run) && n <= |run|
  {
    && i < n && c.task == t && Accepts(run[i], c)
    && forall m :: i < m <= n ==> StatusIs(At(cfg, EmptyDb, run, m), t, Done)
  }

  lemma {:induction false} DoneWasAccepted(cfg: Config, run: seq<Step>, t: string, n: nat) returns (c: AgentId, i: nat, j: nat, k: nat)
    requires CanRun(cfg, EmptyDb, run) && n <= |run| && StatusIs(At(cfg, EmptyDb, run, n), t, Done)
    ensures k < j < i < n && AcceptedAt(cfg, run, t, c, i, n) && CreatedAt(cfg, run, c, j) && SpawnedAt(cfg, run, t, k)
    ensures NoRequeue(run, t, k, i)
    decreases n
  {
    hide Enabled;
    hide Next;
    hide CanRun;
    var db := At(cfg, EmptyDb, run, n - 1);
    AtNext(cfg, EmptyDb, run, n - 1);
    if StatusIs(db, t, Done) {
      c, i, j, k := DoneWasAccepted(cfg, run, t, n - 1);
    } else {
      if t !in db.tasks { RowsAppearQueued(cfg, db, run[n - 1], t); }
      StatusMoves(cfg, db, run[n - 1], t);
      c, i := run[n - 1].a, n - 1;
      j, k := CriticIsCurrent(cfg, run, n - 1);
    }
  }

  lemma RowsAppearQueued(cfg: Config, db: Db, step: Step, t: string)
    requires Enabled(db, step) && t !in db.tasks && t in Next(cfg, db, step).tasks
    ensures StatusIs(Next(cfg, db, step), t, Queued)
  {
    if step.Turn? { RowsStay(db, Made(cfg, db, step)); }
  }

  /** A done task was spawned with its dependencies accepted; then its worker submitted with commits and
      passing checks, which created a critic; then that critic passed it, it was integrated, and since
      then it has been done; all that without a requeue in between. Whatever crashed, was retried or was recovered. */
  lemma DoneIsEarned(cfg: Config, run: seq<Step>, t: string)
    requires CanRun(cfg, EmptyDb, run) && StatusIs(After(cfg, EmptyDb, run), t, Done)
    ensures exists c: AgentId, i: nat, j: nat, k: nat ::
              k < j < i < |run| && AcceptedAt(cfg, run, t, c, i, |run|) && CreatedAt(cfg, run, c, j) && SpawnedAt(cfg, run, t, k)
              && NoRequeue(run, t, k, i)
  {
    hide AcceptedAt;
    hide CreatedAt;
    hide SpawnedAt;
    hide NoRequeue;
    AtEnd(cfg, EmptyDb, run);
    var c, i, j, k := DoneWasAccepted(cfg, run, t, |run|);
  }

  /** Between two moments of a run, a done task stays done unless it is rolled back, and a
      cancelled one stays cancelled unless it is requeued. */
  lemma {:induction false} SettledUntilOwnerActs(cfg: Config, run: seq<Step>, t: string, m: nat, n: nat)
    requires CanRun(cfg, EmptyDb, run) && m <= n <= |run|
    ensures StatusIs(At(cfg, EmptyDb, run, m), t, Done) && Rollback(t) !in run[m..n] ==> StatusIs(At(cfg, EmptyDb, run, n), t, Done)
    ensures StatusIs(At(cfg, EmptyDb, run, m), t, Cancelled) && (forall s :: s in run[m..n] ==> !(s.Requeue? && s.t == t)) ==>
              StatusIs(At(cfg, EmptyDb, run, n), t, Cancelled)
    decreases n - m
  {
    hide Enabled;
    hide Next;
    hide CanRun;
    if m < n {
      SettledUntilOwnerActs(cfg, run, t, m, n - 1);
      AtNext(cfg, EmptyDb, run, n - 1);
      assert run[m..n] == run[m..n - 1] + [run[n - 1]];
      if t in At(cfg, EmptyDb, run, n - 1).tasks {
        StatusMoves(cfg, At(cfg, EmptyDb, run, n - 1), run[n - 1], t);
      }
    }
  }

  // --- the dependency graph ---------------------------------------------------------------------

  /** The same rows with the same projects and dependencies. */
  predicate SameGraph(tasks: map<string, Task>, tasks': map<string, Task>) {
    tasks'.Keys == tasks.Keys
    && forall t :: t in tasks ==> tasks'[t].deps == tasks[t].deps && tasks'[t].project == tasks[t].project
  }

  lemma {:induction false} CommitsKeepGraph(db: Db, ws: seq<Write>)
    ensures SameGraph(db.tasks, ApplyAll(db, ws).tasks)
    decreases |ws|
  {
    if ws != [] {
      assert SameGraph(db.tasks, Apply(db, ws[0]).tasks);
      hide Apply;
      CommitsKeepGraph(Apply(db, ws[0]), ws[1..]);
    }
  }

  /** No scheduler turn, cut off or not, and no owner action on tasks touches the dependency graph:
      whatever is sound about the table stays so. */
  lemma LifecycleKeepsGraph(cfg: Config, db: Db, last: map<string, nat>, step: Step)
    requires Enabled(db, step) && !step.Add? && Sound(Table(db.tasks, last))
    ensures SameGraph(db.tasks, Next(cfg, db, step).tasks) && Sound(Table(Next(cfg, db, step).tasks, last))
  {
    hide Sound;
    assert SameGraph(db.tasks, Next(cfg, db, step).tasks) by {
      if step.Turn? { CommitsKeepGraph(db, Made(cfg, db, step)); }
    }
    hide Next;
    WriteStaysSound(Table(db.tasks, last), Tasks.Lifecycle(Next(cfg, db, step).tasks));
  }
}

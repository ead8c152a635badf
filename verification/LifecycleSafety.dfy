/** What scheduler turns and owner actions keep true together, as long as no turn is cut off
    and no blocked task is retried while it waits for an answer. */
module LifecycleSafety {
  import opened Lifecycle
  import opened Tasks
  import opened Wrappers

  ghost predicate SoleRunner(db: Db, t: string, a: AgentId) {
    IsRunnable(db, a) && a.task == t && forall b: AgentId :: IsRunnable(db, b) && b.task == t ==> b == a
  }

  ghost predicate NoRunner(db: Db, t: string) {
    forall b: AgentId :: IsRunnable(db, b) ==> b.task != t
  }

  /** An active task has exactly one runnable agent, any other task has none; and a blocked or
      accepted one has been worked on. */
  ghost predicate RunnerOk(db: Db, t: string)
    requires t in db.tasks
  {
    && (db.tasks[t].status in {Blocked, Done} ==> Worker(t) in db.agents)
    && if Active(db.tasks[t].status) then exists a: AgentId :: SoleRunner(db, t, a) else NoRunner(db, t)
  }

  /** The critics of a task are numbered without gaps. */
  ghost predicate Numbered(agents: map<AgentId, Agent>, t: string) {
    forall m: nat :: Critic(t, m) in agents <==> 1 <= m <= |Reviews(agents, t)|
  }

  ghost predicate AgentOk(db: Db, a: AgentId)
    requires a in db.agents
  {
    a.task in db.tasks && Worker(a.task) in db.agents && db.agents[a].turns <= db.tasks[a.task].budget
  }

  predicate OpenFor(db: Db, q: nat, t: string) {
    q < |db.questions| && db.questions[q].open && db.questions[q].sender.task == t
  }

  /** Open questions to the owner: at most one a task, and the task waits for it. */
  ghost predicate QuestionsOk(cfg: Config, db: Db) {
    && (forall q: nat :: q < |db.questions| ==> db.questions[q].sender in db.agents)
    && (forall q: nat, t {:trigger OpenFor(db, q, t)} :: OpenFor(db, q, t) && t in db.tasks ==>
          db.tasks[t].status in {Blocked, Cancelled} && db.tasks[t].attempts < cfg.maxAttempts)
    && (forall q: nat, q': nat, t {:trigger OpenFor(db, q, t), OpenFor(db, q', t)} :: OpenFor(db, q, t) && OpenFor(db, q', t) ==> q == q')
  }

  predicate RowOk(cfg: Config, row: Task) {
    row.budget >= 1 && (row.status == Queued || Active(row.status) ==> row.attempts < cfg.maxAttempts)
  }

  ghost predicate Inv(cfg: Config, db: Db) {
    && RunsClosed(db) && QuestionsOk(cfg, db)
    && (forall t :: t in db.tasks ==> RunnerOk(db, t) && RowOk(cfg, db.tasks[t]))
    && (forall a :: a in db.agents ==> AgentOk(db, a))
    && (forall t :: Numbered(db.agents, t))
  }

  // --- turns --------------------------------------------------------------------------

  lemma SameReviews(agents: map<AgentId, Agent>, agents': map<AgentId, Agent>, t: string)
    requires agents'.Keys == agents.Keys && Numbered(agents, t)
    ensures Reviews(agents', t) == Reviews(agents, t) && Numbered(agents', t)
  {
  }

  lemma ReviewsGrow(agents: map<AgentId, Agent>, agents': map<AgentId, Agent>, t: string, u: string)
    requires agents'.Keys == agents.Keys + {NextCritic(agents, t)} && NextCritic(agents, t) !in agents
    ensures |Reviews(agents', u)| == |Reviews(agents, u)| + if u == t then 1 else 0
  {
    var next := NextCritic(agents, t);
    if u == t {
      assert Reviews(agents', t) == Reviews(agents, t) + {next};
    } else {
      assert Reviews(agents', u) == Reviews(agents, u);
    }
  }

  lemma OneMoreReview(agents: map<AgentId, Agent>, agents': map<AgentId, Agent>, t: string, u: string)
    requires agents'.Keys == agents.Keys + {NextCritic(agents, t)}
    requires NextCritic(agents, t) !in agents && Numbered(agents, u)
    ensures Numbered(agents', u)
  {
    hide Reviews;
    ReviewsGrow(agents, agents', t, u);
    forall m: nat ensures Critic(u, m) in agents' <==> Critic(u, m) in agents || Critic(u, m) == NextCritic(agents, t) {}
  }

  /** Before its turn the agent's task is active, and the agent is the only one that can run. */
  lemma TurnAlone(cfg: Config, db: Db, a: AgentId)
    requires Inv(cfg, db) && Eligible(db, a)
    ensures SoleRunner(db, a.task, a) && Active(db.tasks[a.task].status)
  {
    assert RunnerOk(db, a.task);
  }

  /** What every decision has in common: at most one agent is left runnable, and one is
      precisely when the task stays active, with attempts to spare. */
  predicate Sensible(cfg: Config, row: Task, a: AgentId, c: Change) {
    var self, other := c.self == Runnable, c.worker == Some(Runnable);
    && (a.Worker? ==> c.worker.None?)
    && (Active(c.status) <==> self || other || c.created)
    && !(self && other) && !(self && c.created) && !(other && c.created)
    && (Active(c.status) || c.asked ==> c.attempts < cfg.maxAttempts)
    && c.status !in {Queued, Cancelled} && (c.asked ==> c.status == Blocked)
    && c.turns <= row.budget
  }

  lemma DecisionSensible(cfg: Config, db: Db, a: AgentId, s: Session)
    requires Inv(cfg, db) && Eligible(db, a)
    ensures Sensible(cfg, db.tasks[a.task], a, Decision(cfg, db, a, s))
  {
    TurnAlone(cfg, db, a);
    assert RowOk(cfg, db.tasks[a.task]) && AgentOk(db, a);
    DecisionTable(cfg, db, a, s);
  }

  lemma DecisionTable(cfg: Config, db: Db, a: AgentId, s: Session)
    requires Eligible(db, a) && Active(db.tasks[a.task].status)
    requires db.tasks[a.task].attempts < cfg.maxAttempts && db.agents[a].turns <= db.tasks[a.task].budget
    ensures Sensible(cfg, db.tasks[a.task], a, Decision(cfg, db, a, s))
  {
    hide RunsClosed;
    hide NextCritic;
  }

  lemma NextIsCritic(agents: map<AgentId, Agent>, t: string)
    ensures NextCritic(agents, t).Critic? && NextCritic(agents, t).task == t
  {
  }

  lemma OtherRunners(db: Db, db': Db, a: AgentId, c: Change, t: string)
    requires a in db.agents && a.task in db.tasks && Changed(db, db', a, c)
    requires t in db.tasks && t != a.task && RunnerOk(db, t)
    ensures RunnerOk(db', t)
  {
    hide NextCritic;
    NextIsCritic(db.agents, a.task);
    forall b: AgentId | b.task == t ensures IsRunnable(db', b) <==> IsRunnable(db, b) {}
    if Active(db.tasks[t].status) {
      var r: AgentId :| SoleRunner(db, t, r);
      assert SoleRunner(db', t, r);
    }
  }

  lemma OwnRunner(cfg: Config, db: Db, db': Db, a: AgentId, c: Change)
    requires SoleRunner(db, a.task, a) && a.task in db.tasks && Worker(a.task) in db.agents
    requires Sensible(cfg, db.tasks[a.task], a, c) && Changed(db, db', a, c)
    ensures RunnerOk(db', a.task)
  {
    hide NextCritic;
    var t, next := a.task, NextCritic(db.agents, a.task);
    NextIsCritic(db.agents, t);
    if c.self == Runnable {
      assert SoleRunner(db', t, a);
    } else if c.worker == Some(Runnable) {
      assert SoleRunner(db', t, Worker(t));
    } else if c.created {
      assert SoleRunner(db', t, next);
    }
  }

  lemma TurnQuestions(cfg: Config, db: Db, db': Db, a: AgentId, c: Change)
    requires QuestionsOk(cfg, db) && a in db.agents && a.task in db.tasks && Active(db.tasks[a.task].status)
    requires Sensible(cfg, db.tasks[a.task], a, c) && Changed(db, db', a, c)
    ensures QuestionsOk(cfg, db')
  {
    hide NextCritic;
    var t, n := a.task, |db.questions|;
    assert forall q: nat :: !OpenFor(db, q, t);
    forall q: nat, u | OpenFor(db', q, u) ensures if q < n then OpenFor(db, q, u) && u != t else q == n && u == t && c.asked {
      if q < n { assert OpenFor(db, q, u); }
    }
  }

  lemma TurnNumbers(db: Db, db': Db, a: AgentId, c: Change, t: string)
    requires a in db.agents && a.task in db.tasks && Changed(db, db', a, c) && Numbered(db.agents, t)
    ensures Numbered(db'.agents, t)
  {
    hide Reviews;
    hide Numbered;
    if c.created { OneMoreReview(db.agents, db'.agents, a.task, t); } else { SameReviews(db.agents, db'.agents, t); }
  }

  lemma TurnAgents(cfg: Config, db: Db, db': Db, a: AgentId, c: Change)
    requires a in db.agents && a.task in db.tasks
    requires forall b :: b in db.agents ==> AgentOk(db, b)
    requires Sensible(cfg, db.tasks[a.task], a, c) && Changed(db, db', a, c)
    requires db.tasks[a.task].budget >= 1
    ensures forall b :: b in db'.agents ==> AgentOk(db', b)
  {
    hide NextCritic;
    NextIsCritic(db.agents, a.task);
    assert AgentOk(db, a);
    forall b | b in db'.agents ensures AgentOk(db', b) {
      if b in db.agents { assert AgentOk(db, b); }
    }
  }

  lemma TurnKeeps(cfg: Config, db: Db, a: AgentId, s: Session)
    requires Inv(cfg, db) && Eligible(db, a)
    ensures Inv(cfg, ApplyAll(db, TurnWrites(cfg, db, a, s)))
  {
    var db', c := ApplyAll(db, TurnWrites(cfg, db, a, s)), Decision(cfg, db, a, s);
    TurnEffect(cfg, db, a, s);
    TurnCloses(cfg, db, a, s);
    TurnAlone(cfg, db, a);
    DecisionSensible(cfg, db, a, s);
    ChangeKeeps(cfg, db, db', a, c);
  }

  lemma ChangeKeeps(cfg: Config, db: Db, db': Db, a: AgentId, c: Change)
    requires Inv(cfg, db) && SoleRunner(db, a.task, a) && a.task in db.tasks && Active(db.tasks[a.task].status)
    requires Sensible(cfg, db.tasks[a.task], a, c) && Changed(db, db', a, c) && RunsClosed(db')
    ensures Inv(cfg, db')
  {
    assert RowOk(cfg, db.tasks[a.task]) && AgentOk(db, a);
    assert db'.tasks.Keys == db.tasks.Keys;
    hide QuestionsOk;
    hide Numbered;
    hide AgentOk;
    TurnQuestions(cfg, db, db', a, c);
    TurnAgents(cfg, db, db', a, c);
    forall t ensures Numbered(db'.agents, t) {
      TurnNumbers(db, db', a, c, t);
    }
    forall t | t in db'.tasks ensures RunnerOk(db', t) && RowOk(cfg, db'.tasks[t]) {
      KeepsTask(cfg, db, db', a, c, t);
    }
  }

  lemma KeepsTask(cfg: Config, db: Db, db': Db, a: AgentId, c: Change, t: string)
    requires SoleRunner(db, a.task, a) && a.task in db.tasks && Worker(a.task) in db.agents
    requires Sensible(cfg, db.tasks[a.task], a, c) && Changed(db, db', a, c)
    requires RowOk(cfg, db.tasks[a.task]) && t in db.tasks && RowOk(cfg, db.tasks[t]) && RunnerOk(db, t)
    ensures RunnerOk(db', t) && RowOk(cfg, db'.tasks[t])
  {
    assert a in db.agents;
    hide RunnerOk;
    hide SoleRunner;
    hide NextCritic;
    if t == a.task { OwnRunner(cfg, db, db', a, c); } else { OtherRunners(db, db', a, c, t); }
  }

  lemma {:induction false} RunsUntouched(db: Db, ws: seq<Write>)
    requires forall w :: w in ws ==> !w.StartRun? && !w.EndRun?
    ensures ApplyAll(db, ws).runs == db.runs
    decreases |ws|
  {
    if ws != [] {
      assert ws[0] in ws;
      RunsUntouched(Apply(db, ws[0]), ws[1..]);
    }
  }

  /** A complete turn opens and closes one run, or none when the budget was spent. */
  lemma TurnCloses(cfg: Config, db: Db, a: AgentId, s: Session)
    requires Eligible(db, a)
    ensures RunsClosed(ApplyAll(db, TurnWrites(cfg, db, a, s)))
    ensures ApplyAll(db, TurnWrites(cfg, db, a, s)).runs == if BudgetSpent(db, a) then db.runs else db.runs + [Run(a, false)]
  {
    hide NextCritic;
    hide Ran;
    hide Apply;
    if BudgetSpent(db, a) {
      RunsUntouched(db, Block(a.task, a));
    } else {
      var rest := if s.outcome.Deferred? then [] else Handler(cfg, db, a, s);
      SessionEffect(db, a, s);
      ApplyAppend(db, SessionWrites(db, a, s), rest);
      RunsUntouched(ApplyAll(db, SessionWrites(db, a, s)), rest);
    }
  }

  /** A merge conflict by itself never blocks a task: the worker gets it back. */
  lemma ConflictReturnsToWorker(cfg: Config, db: Db, a: AgentId, s: Session)
    requires Inv(cfg, db) && Eligible(db, a) && a.Critic? && !BudgetSpent(db, a)
    requires s.outcome == Finished(Pass) && s.integration.Conflict?
    ensures var db' := ApplyAll(db, TurnWrites(cfg, db, a, s));
            && a.task in db'.tasks && db'.tasks[a.task].status == InProgress && db'.tasks[a.task].attempts == db.tasks[a.task].attempts
            && SoleRunner(db', a.task, Worker(a.task))
  {
    TurnEffect(cfg, db, a, s);
    TurnAlone(cfg, db, a);
    TurnKeeps(cfg, db, a, s);
    hide TurnWrites;
    hide NextCritic;
    assert RowOk(cfg, db.tasks[a.task]) && AgentOk(db, a);
    var db' := ApplyAll(db, TurnWrites(cfg, db, a, s));
    assert RunnerOk(db', a.task);
    var r: AgentId :| SoleRunner(db', a.task, r);
    assert IsRunnable(db', Worker(a.task));
  }

  // --- the owner's steps ------------------------------------------------------------------

  /** Nothing but task t and its agents and questions differs. */
  ghost predicate OnlyTask(db: Db, db': Db, t: string) {
    && t in db.tasks && db'.tasks.Keys == db.tasks.Keys && db'.agents.Keys == db.agents.Keys
    && (forall u :: u in db.tasks && u != t ==> db'.tasks[u] == db.tasks[u])
    && (forall a :: a in db.agents && a.task != t ==> db'.agents[a] == db.agents[a])
  }

  lemma OthersKeep(cfg: Config, db: Db, db': Db, t: string)
    requires Inv(cfg, db) && OnlyTask(db, db', t)
    requires RunnerOk(db', t) && RowOk(cfg, db'.tasks[t]) && RunsClosed(db') && QuestionsOk(cfg, db')
    requires forall a :: a in db.agents && a.task == t ==> db'.agents[a].turns <= db'.tasks[t].budget
    ensures Inv(cfg, db')
  {
    hide QuestionsOk;
    hide RunsClosed;
    forall u ensures Numbered(db'.agents, u) {
      assert Numbered(db.agents, u);
      SameReviews(db.agents, db'.agents, u);
    }
    hide Numbered;
    forall a | a in db'.agents ensures AgentOk(db', a) {
      assert AgentOk(db, a);
    }
    forall u | u in db'.tasks ensures RunnerOk(db', u) && RowOk(cfg, db'.tasks[u]) {
      assert RunnerOk(db, u);
      if u != t { SameRunner(db, db', u); }
    }
  }

  lemma SameRunner(db: Db, db': Db, u: string)
    requires u in db.tasks && RunnerOk(db, u) && u in db'.tasks && db'.tasks[u] == db.tasks[u]
    requires forall a :: a in db.agents && a.task == u ==> a in db'.agents && db'.agents[a] == db.agents[a]
    requires forall a :: a in db'.agents && a.task == u ==> a in db.agents
    ensures RunnerOk(db', u)
  {
    if Active(db.tasks[u].status) {
      var r: AgentId :| SoleRunner(db, u, r);
      assert SoleRunner(db', u, r);
    }
  }

  lemma AddKeeps(cfg: Config, db: Db, t: string, row: Task)
    requires Inv(cfg, db) && Enabled(db, Add(t, row)) && cfg.maxAttempts >= 1
    ensures Inv(cfg, Next(cfg, db, Add(t, row)))
  {
    hide Numbered;
    var db' := Next(cfg, db, Add(t, row));
    forall a | a in db'.agents ensures AgentOk(db', a) && a.task != t {
      assert AgentOk(db, a);
    }
    forall u | u in db'.tasks ensures RunnerOk(db', u) {
      if u != t { SameRunner(db, db', u); }
    }
    forall q: nat, u | OpenFor(db', q, u) ensures OpenFor(db, q, u) && u != t {
      assert db.questions[q].sender in db.agents;
    }
  }

  lemma SpawnQuestions(cfg: Config, db: Db, t: string)
    requires QuestionsOk(cfg, db) && Enabled(db, Spawn(t))
    ensures QuestionsOk(cfg, Next(cfg, db, Spawn(t)))
  {
    var db' := Next(cfg, db, Spawn(t));
    forall q: nat, u | OpenFor(db', q, u) ensures OpenFor(db, q, u) && u != t {
      assert OpenFor(db, q, u);
    }
  }

  lemma SpawnRows(cfg: Config, db: Db, t: string, u: string)
    requires Enabled(db, Spawn(t)) && u in db.tasks && RunnerOk(db, u) && RunnerOk(db, t)
    requires RowOk(cfg, db.tasks[u]) && RowOk(cfg, db.tasks[t])
    ensures var db' := Next(cfg, db, Spawn(t));
            u in db'.tasks && RunnerOk(db', u) && RowOk(cfg, db'.tasks[u])
  {
    var db' := Next(cfg, db, Spawn(t));
    if u == t { assert SoleRunner(db', t, Worker(t)); } else { SameRunner(db, db', u); }
  }

  lemma SpawnKeeps(cfg: Config, db: Db, t: string)
    requires Inv(cfg, db) && Enabled(db, Spawn(t))
    ensures Inv(cfg, Next(cfg, db, Spawn(t)))
  {
    var db' := Next(cfg, db, Spawn(t));
    SpawnQuestions(cfg, db, t);
    hide QuestionsOk;
    forall u | u in db'.tasks ensures RunnerOk(db', u) && RowOk(cfg, db'.tasks[u]) {
      assert RunnerOk(db, t) && RunnerOk(db, u);
      SpawnRows(cfg, db, t, u);
    }
    hide RunnerOk;
    forall u ensures Numbered(db'.agents, u) {
      assert Numbered(db.agents, u);
      assert Reviews(db'.agents, u) == Reviews(db.agents, u);
    }
    hide Numbered;
    forall a | a in db'.agents ensures AgentOk(db', a) {
      if a in db.agents { assert AgentOk(db, a); }
    }
  }

  lemma CancelKeeps(cfg: Config, db: Db, t: string)
    requires Inv(cfg, db) && Enabled(db, Cancel(t))
    ensures Inv(cfg, Next(cfg, db, Cancel(t)))
  {
    var db' := Next(cfg, db, Cancel(t));
    forall q: nat, u | OpenFor(db', q, u) ensures OpenFor(db, q, u) {}
    assert QuestionsOk(cfg, db');
    assert RowOk(cfg, db.tasks[t]);
    forall a | a in db.agents && a.task == t ensures db'.agents[a].turns <= db'.tasks[t].budget {
      assert AgentOk(db, a);
    }
    hide Inv;
    hide QuestionsOk;
    OthersKeep(cfg, db, db', t);
  }

  lemma RequeueKeeps(cfg: Config, db: Db, t: string, budget: Option<int>)
    requires Inv(cfg, db) && Enabled(db, Requeue(t, budget)) && cfg.maxAttempts >= 1
    ensures Inv(cfg, Next(cfg, db, Requeue(t, budget)))
  {
    var db' := Next(cfg, db, Requeue(t, budget));
    forall q: nat, u | OpenFor(db', q, u) ensures OpenFor(db, q, u) && u != t {}
    assert QuestionsOk(cfg, db');
    assert RowOk(cfg, db.tasks[t]);
    hide Inv;
    hide QuestionsOk;
    OthersKeep(cfg, db, db', t);
  }

  lemma RollbackKeeps(cfg: Config, db: Db, t: string)
    requires Inv(cfg, db) && Enabled(db, Rollback(t))
    ensures Inv(cfg, Next(cfg, db, Rollback(t)))
  {
    var db' := Next(cfg, db, Rollback(t));
    assert RunnerOk(db, t) && RowOk(cfg, db.tasks[t]);
    forall q: nat, u | OpenFor(db', q, u) ensures OpenFor(db, q, u) && u != t {
      assert OpenFor(db, q, u);
    }
    assert QuestionsOk(cfg, db');
    forall a | a in db.agents && a.task == t ensures db'.agents[a].turns <= db'.tasks[t].budget {
      assert AgentOk(db, a);
    }
    hide Inv;
    hide QuestionsOk;
    OthersKeep(cfg, db, db', t);
  }

  lemma SameRuns(db: Db, db': Db)
    requires RunsClosed(db) && db'.runs == db.runs
    ensures RunsClosed(db')
  {
  }

  lemma AnswerQuestions(cfg: Config, db: Db, q: nat)
    requires QuestionsOk(cfg, db) && Enabled(db, Answer(q))
    ensures QuestionsOk(cfg, Next(cfg, db, Answer(q)))
  {
    var t, db' := db.questions[q].sender.task, Next(cfg, db, Answer(q));
    assert OpenFor(db, q, t);
    forall p: nat, u | OpenFor(db', p, u) ensures OpenFor(db, p, u) && u != t {
      assert OpenFor(db, p, u);
    }
  }

  /** The task an open question belongs to waits for it, unless it is cancelled. */
  lemma AskedTaskWaits(cfg: Config, db: Db, q: nat)
    requires QuestionsOk(cfg, db) && Enabled(db, Answer(q))
    ensures var t := db.questions[q].sender.task;
            db.tasks[t].status == Blocked && db.tasks[t].attempts < cfg.maxAttempts
  {
    assert OpenFor(db, q, db.questions[q].sender.task);
  }

  lemma AnswerKeeps(cfg: Config, db: Db, q: nat)
    requires Inv(cfg, db) && Enabled(db, Answer(q))
    ensures Inv(cfg, Next(cfg, db, Answer(q)))
  {
    hide Numbered;
    hide RunsClosed;
    AnswerQuestions(cfg, db, q);
    AskedTaskWaits(cfg, db, q);
    hide QuestionsOk;
    var a := db.questions[q].sender;
    var t, db' := a.task, Next(cfg, db, Answer(q));
    assert RunsClosed(db') by { SameRuns(db, db'); }
    assert RunnerOk(db, t) && RowOk(cfg, db.tasks[t]);
    assert SoleRunner(db', t, a);
    forall b | b in db.agents && b.task == t ensures db'.agents[b].turns <= db'.tasks[t].budget {
      assert AgentOk(db, b);
    }
    hide Inv;
    hide SoleRunner;
    OthersKeep(cfg, db, db', t);
  }

  lemma RecoverNeedsOpenRun(db: Db, runs: set<nat>)
    requires Enabled(db, Recover(runs))
    ensures !RunsClosed(db)
  {
    var i :| i in runs;
    assert db.runs[i].open;
  }

  /** What the owner should look at before retrying: no blocked task waits for an answer. */
  predicate RetrySafe(db: Db) {
    forall q: nat :: q < |db.questions| && db.questions[q].open && db.questions[q].sender.task in db.tasks ==>
      db.tasks[db.questions[q].sender.task].status != Blocked
  }

  lemma RetryRunner(cfg: Config, db: Db, t: string)
    requires Inv(cfg, db) && t in db.tasks
    ensures RunnerOk(Next(cfg, db, Retry), t)
  {
    hide QuestionsOk;
    hide Numbered;
    hide RunsClosed;
    var db' := Next(cfg, db, Retry);
    assert RunnerOk(db, t);
    if db.tasks[t].status == Blocked {
      assert SoleRunner(db', t, Worker(t));
    } else {
      forall b: AgentId | b.task == t ensures IsRunnable(db', b) <==> IsRunnable(db, b) {}
      if Active(db.tasks[t].status) {
        var r: AgentId :| SoleRunner(db, t, r);
        assert SoleRunner(db', t, r);
      }
    }
  }

  lemma RetryQuestions(cfg: Config, db: Db)
    requires QuestionsOk(cfg, db)
    ensures QuestionsOk(cfg, Next(cfg, db, Retry)) <==> RetrySafe(db)
  {
    var db' := Next(cfg, db, Retry);
    forall q: nat, t ensures OpenFor(db', q, t) <==> OpenFor(db, q, t) {}
    if !RetrySafe(db) {
      var q: nat :| q < |db.questions| && db.questions[q].open && db.questions[q].sender.task in db.tasks
                    && db.tasks[db.questions[q].sender.task].status == Blocked;
      var t := db.questions[q].sender.task;
      assert OpenFor(db', q, t) && db'.tasks[t].status == InProgress;
    } else {
      forall q: nat, t | OpenFor(db', q, t) && t in db'.tasks
        ensures db'.tasks[t].status in {Blocked, Cancelled} && db'.tasks[t].attempts < cfg.maxAttempts
      {
        assert OpenFor(db, q, t);
      }
    }
  }

  lemma RetryRows(cfg: Config, db: Db)
    ensures var db' := Next(cfg, db, Retry);
            && db'.tasks.Keys == db.tasks.Keys && db'.agents.Keys == db.agents.Keys
            && (forall a :: a in db.agents ==> db'.agents[a].turns == db.agents[a].turns)
            && (forall t :: t in db.tasks ==> db'.tasks[t].budget == db.tasks[t].budget)
            && (forall t :: t in db.tasks && cfg.maxAttempts >= 1 && RowOk(cfg, db.tasks[t]) ==> RowOk(cfg, db'.tasks[t]))
  {
  }

  /** Retrying all blocked tasks keeps the joint invariant precisely when none of them has an open question. */
  lemma RetryKeepsIff(cfg: Config, db: Db)
    requires Inv(cfg, db) && cfg.maxAttempts >= 1
    ensures Inv(cfg, Next(cfg, db, Retry)) <==> RetrySafe(db)
  {
    var db' := Next(cfg, db, Retry);
    RetryQuestions(cfg, db);
    assert RunsClosed(db') by { SameRuns(db, db'); }
    RetryRows(cfg, db);
    hide Next;
    hide RetrySafe;
    hide QuestionsOk;
    hide RunsClosed;
    hide RunnerOk;
    forall t ensures Numbered(db'.agents, t) {
      assert Numbered(db.agents, t);
      SameReviews(db.agents, db'.agents, t);
    }
    hide Numbered;
    forall a | a in db'.agents ensures AgentOk(db', a) {
      assert AgentOk(db, a);
    }
    forall t | t in db'.tasks ensures RunnerOk(db', t) && RowOk(cfg, db'.tasks[t]) {
      RetryRunner(cfg, db, t);
      assert RowOk(cfg, db.tasks[t]);
    }
  }

  lemma StepKeeps(cfg: Config, db: Db, step: Step)
    requires Inv(cfg, db) && Enabled(db, step) && cfg.maxAttempts >= 1
    requires Uninterrupted(cfg, db, step) && (step.Retry? ==> RetrySafe(db))
    ensures Inv(cfg, Next(cfg, db, step))
  {
    match step
    case Add(t, row) => AddKeeps(cfg, db, t, row);
    case Spawn(t) => SpawnKeeps(cfg, db, t);
    case Turn(a, s, _) =>
      hide Inv;
      TurnKeeps(cfg, db, a, s);
    case Cancel(t) => CancelKeeps(cfg, db, t);
    case Requeue(t, budget) => RequeueKeeps(cfg, db, t, budget);
    case Answer(q) => AnswerKeeps(cfg, db, q);
    case Rollback(t) => RollbackKeeps(cfg, db, t);
    case Retry => RetryKeepsIff(cfg, db);
    case Recover(runs) => RecoverNeedsOpenRun(db, runs);
  }

  /** No turn of the run is cut off, and blocked tasks are retried only when none waits for an answer. */
  predicate Orderly(cfg: Config, db: Db, run: seq<Step>)
    requires CanRun(cfg, db, run)
    decreases |run|
  {
    run == [] || (Uninterrupted(cfg, db, run[0]) && (run[0].Retry? ==> RetrySafe(db)) && Orderly(cfg, Next(cfg, db, run[0]), run[1..]))
  }

  lemma {:induction false} OrderlyRunKeeps(cfg: Config, db: Db, run: seq<Step>)
    requires Inv(cfg, db) && cfg.maxAttempts >= 1 && CanRun(cfg, db, run) && Orderly(cfg, db, run)
    ensures Inv(cfg, After(cfg, db, run))
    decreases |run|
  {
    hide Inv;
    hide Enabled;
    hide Next;
    hide Uninterrupted;
    hide RetrySafe;
    if run != [] {
      StepKeeps(cfg, db, run[0]);
      OrderlyRunKeeps(cfg, Next(cfg, db, run[0]), run[1..]);
    }
  }

  lemma EmptyIsInv(cfg: Config)
    ensures Inv(cfg, EmptyDb)
  {
    assert forall t :: Reviews(EmptyDb.agents, t) == {};
  }

  /** The joint invariant in every state an orderly run reaches from the empty database. */
  lemma JointInvariant(cfg: Config, run: seq<Step>)
    requires cfg.maxAttempts >= 1 && CanRun(cfg, EmptyDb, run) && Orderly(cfg, EmptyDb, run)
    ensures var db := After(cfg, EmptyDb, run);
            && (forall t :: t in db.tasks ==>
                  && (Active(db.tasks[t].status) ==> exists a: AgentId :: SoleRunner(db, t, a))
                  && (!Active(db.tasks[t].status) ==> NoRunner(db, t))
                  && (db.tasks[t].status == Queued || Active(db.tasks[t].status) ==> db.tasks[t].attempts < cfg.maxAttempts))
            && (forall a :: a in db.agents ==> a.task in db.tasks && db.agents[a].turns <= db.tasks[a.task].budget)
            && (forall q: nat :: q < |db.questions| && db.questions[q].open ==>
                  && db.questions[q].sender.task in db.tasks
                  && db.tasks[db.questions[q].sender.task].status in {Blocked, Cancelled}
                  && NoRunner(db, db.questions[q].sender.task))
  {
    EmptyIsInv(cfg);
    OrderlyRunKeeps(cfg, EmptyDb, run);
    var db := After(cfg, EmptyDb, run);
    hide Numbered;
    forall t | t in db.tasks ensures RunnerOk(db, t) {}
    forall q: nat | q < |db.questions| && db.questions[q].open
      ensures db.questions[q].sender.task in db.tasks && db.tasks[db.questions[q].sender.task].status in {Blocked, Cancelled}
    {
      assert AgentOk(db, db.questions[q].sender);
      assert OpenFor(db, q, db.questions[q].sender.task);
    }
  }

  // --- retry while a question is open ----------------------------------------------------------

  /** Whatever came before, an answer leaves one agent of the task runnable precisely when no other agent
      than the asker can run when it is given. */
  lemma AnswerRunsOneIff(cfg: Config, db: Db, q: nat)
    requires Answerable(db, q)
    ensures var asker, db' := db.questions[q].sender, Next(cfg, db, Answer(q));
            && IsRunnable(db', asker)
            && (forall b: AgentId :: b != asker ==> (IsRunnable(db', b) <==> IsRunnable(db, b)))
            && ((exists a: AgentId :: SoleRunner(db', asker.task, a))
                <==> forall b: AgentId :: IsRunnable(db, b) && b.task == asker.task ==> b == asker)
  {
    var asker, db' := db.questions[q].sender, Next(cfg, db, Answer(q));
    assert forall b: AgentId :: b != asker ==> (IsRunnable(db', b) <==> IsRunnable(db, b));
    if a: AgentId :| SoleRunner(db', asker.task, a) {
      assert a == asker;
    }
    if forall b: AgentId :: IsRunnable(db, b) && b.task == asker.task ==> b == asker {
      assert SoleRunner(db', asker.task, asker);
    }
  }

  /** An answer given directly after a retry of the blocked task: one agent is runnable if the worker had asked;
      if a critic had, the critic and the worker both are. */
  lemma RetryThenAnswer(cfg: Config, db: Db, q: nat)
    requires Inv(cfg, db) && Answerable(db, q)
    ensures var asker, mid := db.questions[q].sender, Next(cfg, db, Retry);
            && Enabled(mid, Answer(q))
            && ((exists a: AgentId :: SoleRunner(Next(cfg, mid, Answer(q)), asker.task, a)) <==> asker.Worker?)
            && (asker.Critic? ==> IsRunnable(Next(cfg, mid, Answer(q)), asker) && IsRunnable(Next(cfg, mid, Answer(q)), Worker(asker.task)))
  {
    var asker, mid := db.questions[q].sender, Next(cfg, db, Retry);
    var t := asker.task;
    assert OpenFor(db, q, t) && AgentOk(db, asker) && RunnerOk(db, t);
    hide QuestionsOk;
    hide Numbered;
    hide RunsClosed;
    AnswerRunsOneIff(cfg, mid, q);
    forall b: AgentId | b.task == t ensures IsRunnable(mid, b) <==> b == Worker(t) {}
  }

  /** A turn in between changes that: the worker that had asked goes on, its work passes the checks, and then the
      answer leaves the worker runnable beside the critic that reviews its work. */
  lemma RetryReviewAnswer(cfg: Config, db: Db, q: nat, s: Session) returns (step: Step)
    requires Inv(cfg, db) && Answerable(db, q) && db.questions[q].sender.Worker? && !BudgetSpent(db, db.questions[q].sender)
    requires s.outcome.Finished? && s.commits == Yes && s.checks == Yes
    ensures var asker, mid := db.questions[q].sender, Next(cfg, db, Retry);
            && Enabled(mid, step) && Uninterrupted(cfg, mid, step) && step.Turn? && step.a == asker
            && Answerable(Next(cfg, mid, step), q)
            && var end, critic := Next(cfg, Next(cfg, mid, step), Answer(q)), NextCritic(db.agents, asker.task);
               IsRunnable(end, asker) && IsRunnable(end, critic) && !exists a: AgentId :: SoleRunner(end, asker.task, a)
  {
    var asker, mid := db.questions[q].sender, Next(cfg, db, Retry);
    RetryResumesWorker(cfg, db, q);
    NextIsCritic(db.agents, asker.task);
    hide Inv;
    hide NextCritic;
    hide Next;
    step := ReviewStarts(cfg, mid, asker, s);
    hide BudgetSpent;
    hide Uninterrupted;
    hide RunsClosed;
    AnswerRunsOneIff(cfg, Next(cfg, mid, step), q);
  }

  lemma RetryResumesWorker(cfg: Config, db: Db, q: nat)
    requires Inv(cfg, db) && Answerable(db, q) && db.questions[q].sender.Worker? && !BudgetSpent(db, db.questions[q].sender)
    ensures var asker, mid := db.questions[q].sender, Next(cfg, db, Retry);
            && Eligible(mid, asker) && !BudgetSpent(mid, asker) && mid.questions == db.questions
            && NextCritic(mid.agents, asker.task) == NextCritic(db.agents, asker.task)
            && NextCritic(db.agents, asker.task) !in mid.agents
  {
    var asker, mid := db.questions[q].sender, Next(cfg, db, Retry);
    assert OpenFor(db, q, asker.task) && Numbered(db.agents, asker.task);
    SameNextCritic(db.agents, mid.agents, asker.task);
    hide QuestionsOk;
    hide Numbered;
  }

  lemma ReviewStarts(cfg: Config, db: Db, w: AgentId, s: Session) returns (step: Step)
    requires Eligible(db, w) && w.Worker? && !BudgetSpent(db, w) && NextCritic(db.agents, w.task) !in db.agents
    requires s.outcome.Finished? && s.commits == Yes && s.checks == Yes
    ensures step.Turn? && step.a == w && Enabled(db, step) && Uninterrupted(cfg, db, step)
    ensures var db', c := Next(cfg, db, step), NextCritic(db.agents, w.task);
            && Eligible(db', c) && w in db'.agents && db'.questions == db.questions
            && db'.agents[c].turns == 0 && db'.tasks[w.task].budget == db.tasks[w.task].budget
  {
    step := CompleteTurn(cfg, db, w, s);
    hide Next;
    hide NextCritic;
    NextIsCritic(db.agents, w.task);
  }

  lemma OwnerAsked(cfg: Config, db: Db, a: AgentId, s: Session) returns (step: Step)
    requires Eligible(db, a) && !BudgetSpent(db, a) && s.outcome == Asked(true)
    ensures step.Turn? && Enabled(db, step) && Uninterrupted(cfg, db, step)
    ensures var db' := Next(cfg, db, step);
            && Answerable(db', |db.questions|) && db'.questions[|db.questions|].sender == a
            && db'.agents[a].turns == db.agents[a].turns + 1 && db'.tasks[a.task].budget == db.tasks[a.task].budget
  {
    step := CompleteTurn(cfg, db, a, s);
    hide Next;
    hide NextCritic;
  }

  /** Such a state is reachable: the worker's work passes its checks, and the critic asks the owner. */
  lemma CriticMayAsk(row: Task) returns (run: seq<Step>)
    requires row.status == Queued && row.attempts == 0 && row.budget >= 1 && row.deps == []
    ensures var cfg := Config(3);
            && CanRun(cfg, EmptyDb, run) && Orderly(cfg, EmptyDb, run)
            && Answerable(After(cfg, EmptyDb, run), 0) && After(cfg, EmptyDb, run).questions[0].sender.Critic?
  {
    var cfg, w := Config(3), Worker("t");
    var db1 := Next(cfg, EmptyDb, Add("t", row));
    var db2 := Next(cfg, db1, Spawn("t"));
    assert Eligible(db2, w) && Reviews(db2.agents, "t") == {};
    var c := NextCritic(db2.agents, "t");
    assert c == Critic("t", 1);
    var step3 := ReviewStarts(cfg, db2, w, Session(Finished(Missing), Yes, Yes, Commit));
    hide Next;
    var db3 := Next(cfg, db2, step3);
    var step4 := OwnerAsked(cfg, db3, c, Session(Asked(true), Yes, Yes, Commit));
    hide Eligible;
    hide CanRun;
    hide After;
    hide Orderly;
    hide Enabled;
    run := Nothing(cfg, Next(cfg, db3, step4));
    run := Prepended(cfg, db3, step4, run);
    run := Prepended(cfg, db2, step3, run);
    run := Prepended(cfg, db1, Spawn("t"), run);
    run := Prepended(cfg, EmptyDb, Add("t", row), run);
  }

  /** So is a state in which the worker has asked and has turns left. */
  lemma WorkerMayAsk(row: Task) returns (run: seq<Step>)
    requires row.status == Queued && row.attempts == 0 && row.budget >= 2 && row.deps == []
    ensures var cfg := Config(3);
            && CanRun(cfg, EmptyDb, run) && Orderly(cfg, EmptyDb, run)
            && var db := After(cfg, EmptyDb, run);
               Inv(cfg, db) && Answerable(db, 0) && db.questions[0].sender.Worker? && !BudgetSpent(db, db.questions[0].sender)
  {
    var cfg, w := Config(3), Worker("t");
    var db1 := Next(cfg, EmptyDb, Add("t", row));
    var db2 := Next(cfg, db1, Spawn("t"));
    assert Eligible(db2, w);
    var step := OwnerAsked(cfg, db2, w, Session(Asked(true), Yes, Yes, Commit));
    hide Next;
    hide Eligible;
    hide CanRun;
    hide After;
    hide Orderly;
    hide Enabled;
    run := Nothing(cfg, Next(cfg, db2, step));
    run := Prepended(cfg, db2, step, run);
    run := Prepended(cfg, db1, Spawn("t"), run);
    run := Prepended(cfg, EmptyDb, Add("t", row), run);
    EmptyIsInv(cfg);
    OrderlyRunKeeps(cfg, EmptyDb, run);
  }

  lemma CompleteTurn(cfg: Config, db: Db, a: AgentId, s: Session) returns (step: Step)
    requires Eligible(db, a)
    ensures step.Turn? && step.a == a && Enabled(db, step) && Uninterrupted(cfg, db, step)
    ensures Changed(db, Next(cfg, db, step), a, Decision(cfg, db, a, s)) && RunsClosed(Next(cfg, db, step))
  {
    TurnEffect(cfg, db, a, s);
    TurnCloses(cfg, db, a, s);
    step := Turn(a, s, |TurnWrites(cfg, db, a, s)|);
  }

  lemma Nothing(cfg: Config, db: Db) returns (run: seq<Step>)
    ensures CanRun(cfg, db, run) && Orderly(cfg, db, run) && After(cfg, db, run) == db
  {
    run := [];
  }

  lemma Prepended(cfg: Config, db: Db, step: Step, rest: seq<Step>) returns (run: seq<Step>)
    requires Enabled(db, step) && Uninterrupted(cfg, db, step) && (step.Retry? ==> RetrySafe(db))
    requires CanRun(cfg, Next(cfg, db, step), rest) && Orderly(cfg, Next(cfg, db, step), rest)
    ensures CanRun(cfg, db, run) && Orderly(cfg, db, run) && After(cfg, db, run) == After(cfg, Next(cfg, db, step), rest)
  {
    hide Enabled;
    hide Next;
    hide Uninterrupted;
    run := [step] + rest;
    assert run[1..] == rest;
  }
}

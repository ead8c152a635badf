/** Why the scheduler's loop ends: every spawn and every turn that is not deferred uses up work. */
module Termination {
  import opened Lifecycle
  import opened Sums
  import opened Tasks

  function Left(budget: int, turns: nat): nat {
    if budget > turns then budget - turns else 0
  }

  function RunWeight(state: AgentState): nat {
    if state == Runnable then 1 else 0
  }

  /** Each turn a worker has left may create a critic with a whole budget of its own. */
  function WorkerWeight(budget: int, turns: nat, state: AgentState): nat {
    Left(budget, turns) * (Left(budget, 0) + 2) + RunWeight(state)
  }

  function CriticWeight(budget: int, turns: nat, state: AgentState): nat {
    if state == Runnable then Left(budget, turns) + 1 else 0
  }

  function AgentWeight(tasks: map<string, Task>, a: AgentId, row: Agent): nat {
    if a.task !in tasks then 0
    else if a.Worker? then WorkerWeight(tasks[a.task].budget, row.turns, row.state)
    else CriticWeight(tasks[a.task].budget, row.turns, row.state)
  }

  /** A queued task may still be spawned, possibly with a new worker row. */
  function TaskWeight(row: Task, hasWorker: bool): nat {
    if row.status != Queued then 0
    else 2 + if hasWorker then 0 else WorkerWeight(row.budget, 0, Waiting)
  }

  function AgentWeights(db: Db): map<AgentId, nat> {
    map a | a in db.agents :: AgentWeight(db.tasks, a, db.agents[a])
  }

  function TaskWeights(db: Db): map<string, nat> {
    map t | t in db.tasks :: TaskWeight(db.tasks[t], Worker(t) in db.agents)
  }

  /** The work that can still be done without the owner. */
  ghost function Work(db: Db): nat {
    Sum(AgentWeights(db)) + Sum(TaskWeights(db))
  }

  lemma OneTurnLess(budget: int, turns: nat, k: nat)
    requires turns < budget
    ensures Left(budget, turns) * k == Left(budget, turns + 1) * k + k
  {
  }

  // --- spawning ---------------------------------------------------------------------------

  lemma SpawnWeights(db: Db, t: string)
    requires t in db.tasks
    ensures var db', w := Apply(db, Activate(t)), Worker(t);
            && w in db'.agents && db'.agents[w].state == Runnable
            && db'.agents[w].turns == (if w in db.agents then db.agents[w].turns else 0)
            && AgentWeights(db') == AgentWeights(db)[w := AgentWeight(db.tasks, w, db'.agents[w])]
            && TaskWeights(db') == TaskWeights(db)[t := 0]
  {
    hide WorkerWeight;
    hide CriticWeight;
    hide Left;
    var db', w := Apply(db, Activate(t)), Worker(t);
    assert db'.tasks.Keys == db.tasks.Keys;
    forall a | a in db'.agents ensures AgentWeights(db')[a] == AgentWeights(db)[w := AgentWeight(db.tasks, w, db'.agents[w])][a] {
      SameBudget(db.tasks, db'.tasks, a, db'.agents[a]);
    }
  }

  lemma SameBudget(tasks: map<string, Task>, tasks': map<string, Task>, a: AgentId, row: Agent)
    requires tasks'.Keys == tasks.Keys && (a.task in tasks ==> tasks'[a.task].budget == tasks[a.task].budget)
    ensures AgentWeight(tasks', a, row) == AgentWeight(tasks, a, row)
  {
  }

  lemma SpawnDecreases(db: Db, t: string)
    requires t in db.tasks && db.tasks[t].status == Queued
    ensures Work(Apply(db, Activate(t))) < Work(db)
  {
    var db', w := Apply(db, Activate(t)), Worker(t);
    SpawnWeights(db, t);
    SumUpdate(AgentWeights(db), w, AgentWeight(db.tasks, w, db'.agents[w]));
    SumUpdate(TaskWeights(db), t, 0);
    hide Apply;
    hide Left;
  }

  // --- turns --------------------------------------------------------------------------------

  /** The weights of everybody but the agent, its task's worker and its next critic stay as they were. */
  lemma OtherWeights(db: Db, db': Db, a: AgentId, c: Change, b: AgentId)
    requires a in db.agents && a.task in db.tasks && Changed(db, db', a, c) && b in db'.agents
    ensures b != a && b != Worker(a.task) && (c.created ==> b != NextCritic(db.agents, a.task)) ==>
              b in db.agents && AgentWeights(db')[b] == AgentWeights(db)[b]
    ensures AgentWeights(db')[b] == AgentWeight(db.tasks, b, db'.agents[b])
  {
    hide Reviews;
    hide WorkerWeight;
    hide CriticWeight;
    SameBudget(db.tasks, db'.tasks, b, db'.agents[b]);
  }

  lemma TasksWeighSame(db: Db, db': Db, a: AgentId, c: Change)
    requires a in db.agents && a.task in db.tasks && Changed(db, db', a, c)
    requires db.tasks[a.task].status != Queued && c.status != Queued
    ensures TaskWeights(db') == TaskWeights(db)
  {
    hide Reviews;
    hide WorkerWeight;
  }

  function Pair(db: Db, a: AgentId): nat
    requires a in db.agents
  {
    AgentWeight(db.tasks, a, db.agents[a])
    + if a.Critic? && Worker(a.task) in db.agents then AgentWeight(db.tasks, Worker(a.task), db.agents[Worker(a.task)]) else 0
  }

  /** A turn's change on the weights: the agent, its worker when it is a critic, and a new critic. */
  lemma WeightsChange(db: Db, db': Db, a: AgentId, c: Change)
    requires a in db.agents && a.task in db.tasks && Changed(db, db', a, c)
    requires db.tasks[a.task].status != Queued && c.status != Queued && (c.created ==> a.Worker?)
    ensures Work(db') + Pair(db, a) == Work(db) + Pair(db', a) + if c.created then Left(db.tasks[a.task].budget, 0) + 1 else 0
  {
    TasksWeighSame(db, db', a, c);
    var w, next := Worker(a.task), NextCritic(db.agents, a.task);
    var before, after := AgentWeights(db), AgentWeights(db');
    forall b | b in after
      ensures b != a && b != w && (c.created ==> b != next) ==> b in before && after[b] == before[b]
      ensures after[b] == AgentWeight(db.tasks, b, db'.agents[b])
    {
      OtherWeights(db, db', a, c, b);
    }
    SameBudget(db.tasks, db'.tasks, a, db'.agents[a]);
    if w in db'.agents { SameBudget(db.tasks, db'.tasks, w, db'.agents[w]); }
    Weigh(db, db', a, c, before, after);
  }

  lemma Weigh(db: Db, db': Db, a: AgentId, c: Change, before: map<AgentId, nat>, after: map<AgentId, nat>)
    requires a in db.agents && a.task in db.tasks && Changed(db, db', a, c) && (c.created ==> a.Worker?)
    requires before == AgentWeights(db) && after.Keys == db'.agents.Keys
    requires forall b :: b in after ==> after[b] == AgentWeight(db.tasks, b, db'.agents[b])
    requires forall b :: b in after && b != a && b != Worker(a.task) && (c.created ==> b != NextCritic(db.agents, a.task)) ==>
               b in before && after[b] == before[b]
    ensures var w := Worker(a.task);
            Sum(after) + before[a] + (if a.Critic? && w in before then before[w] else 0)
            == Sum(before) + after[a] + (if a.Critic? && w in before then after[w] else 0)
               + (if c.created then Left(db.tasks[a.task].budget, 0) + 1 else 0)
  {
    hide Reviews;
    hide WorkerWeight;
    hide Left;
    var w, next := Worker(a.task), NextCritic(db.agents, a.task);
    if a.Critic? {
      SumDiffer(before, after, a, w);
    } else {
      SumDiffer(before, after, a, next);
    }
  }

  /** The turn is not put off by the provider. */
  predicate Spends(db: Db, a: AgentId, s: Session)
    requires Eligible(db, a)
  {
    BudgetSpent(db, a) || !s.outcome.Deferred?
  }

  lemma WorkerTurn(cfg: Config, db: Db, db': Db, a: AgentId, s: Session)
    requires Eligible(db, a) && a.Worker? && Spends(db, a, s) && Changed(db, db', a, Decision(cfg, db, a, s))
    ensures Pair(db', a) + (if Decision(cfg, db, a, s).created then Left(db.tasks[a.task].budget, 0) + 1 else 0) < Pair(db, a)
  {
    hide NextCritic;
    hide RunsClosed;
    var row, turns := db.tasks[a.task], db.agents[a].turns;
    SameBudget(db.tasks, db'.tasks, a, db'.agents[a]);
    if !BudgetSpent(db, a) {
      OneTurnLess(row.budget, turns, Left(row.budget, 0) + 2);
      assert Decision(cfg, db, a, s).turns == turns + 1;
    }
  }

  lemma CriticTurn(cfg: Config, db: Db, db': Db, a: AgentId, s: Session)
    requires Eligible(db, a) && a.Critic? && Spends(db, a, s) && Changed(db, db', a, Decision(cfg, db, a, s))
    ensures !Decision(cfg, db, a, s).created && Pair(db', a) < Pair(db, a)
  {
    hide NextCritic;
    hide RunsClosed;
    var w := Worker(a.task);
    SameBudget(db.tasks, db'.tasks, a, db'.agents[a]);
    if w in db.agents { SameBudget(db.tasks, db'.tasks, w, db'.agents[w]); }
  }

  /** A turn that is not deferred leaves less work than there was, from any state at all. */
  lemma TurnDecreases(cfg: Config, db: Db, a: AgentId, s: Session)
    requires Eligible(db, a) && Spends(db, a, s)
    ensures Work(ApplyAll(db, TurnWrites(cfg, db, a, s))) < Work(db)
  {
    TurnEffect(cfg, db, a, s);
    var db', c := ApplyAll(db, TurnWrites(cfg, db, a, s)), Decision(cfg, db, a, s);
    hide TurnWrites;
    if a.Worker? { WorkerTurn(cfg, db, db', a, s); } else { CriticTurn(cfg, db, db', a, s); }
    NotQueued(cfg, db, a, s);
    hide Changed;
    hide Decision;
    WeightsChange(db, db', a, c);
  }

  lemma NotQueued(cfg: Config, db: Db, a: AgentId, s: Session)
    requires Eligible(db, a)
    ensures db.tasks[a.task].status != Queued && Decision(cfg, db, a, s).status != Queued
    ensures Decision(cfg, db, a, s).created ==> a.Worker?
  {
    hide NextCritic;
    hide RunsClosed;
  }
}

/** Tasks and the agents working on them: the rows, the single commits that change them, and the
    list of commits a scheduler turn makes. A process that dies in a turn has made a prefix of the list. */
module Lifecycle {
  import opened Tasks
  import opened Wrappers

  // --- rows -----------------------------------------------------------------------

  datatype AgentId = Worker(task: string) | Critic(task: string, n: nat)

  datatype AgentState = Runnable | Waiting | Stopped

  datatype Agent = Agent(state: AgentState, turns: nat, updated: nat)

  /** A question an agent put to the owner; it is open until delivered. */
  datatype Question = Question(sender: AgentId, open: bool)

  datatype Run = Run(agent: AgentId, open: bool)

  datatype Db = Db(tasks: map<string, Task>, agents: map<AgentId, Agent>, questions: seq<Question>,
                   runs: seq<Run>, clock: nat)

  const EmptyDb := Db(map[], map[], [], [], 0)

  predicate Active(status: Status) { status in {InProgress, InReview} }

  predicate IsRunnable(db: Db, a: AgentId) {
    a in db.agents && db.agents[a].state == Runnable
  }

  predicate RunsClosed(db: Db) {
    forall i :: 0 <= i < |db.runs| ==> !db.runs[i].open
  }

  // --- single commits ---------------------------------------------------------------

  datatype Write =
    | SetStatus(t: string, status: Status)
    | SetAttempts(t: string, attempts: nat)
    | Reopen(t: string, attempts: nat)
    | SetState(a: AgentId, state: AgentState)
    | SetTurns(a: AgentId, turns: nat)
    | AddCritic(a: AgentId)
    | Ask(a: AgentId)
    | StartRun(a: AgentId)
    | EndRun(i: nat)
    | Activate(t: string)

  /** UPDATE of one task row; nothing happens when there is no such row. */
  function WithTask(db: Db, t: string, status: Status, attempts: nat): Db {
    if t in db.tasks then db.(tasks := db.tasks[t := db.tasks[t].(status := status, attempts := attempts)]) else db
  }

  /** UPDATE of one agent row, which also stamps it. */
  function WithState(db: Db, a: AgentId, state: AgentState): Db {
    if a in db.agents then db.(agents := db.agents[a := db.agents[a].(state := state, updated := db.clock)], clock := db.clock + 1)
    else db
  }

  function Apply(db: Db, w: Write): Db {
    match w
    case SetStatus(t, status) => WithTask(db, t, status, if t in db.tasks then db.tasks[t].attempts else 0)
    case SetAttempts(t, n) => WithTask(db, t, if t in db.tasks then db.tasks[t].status else Queued, n)
    case Reopen(t, n) => WithTask(db, t, InProgress, n)
    case SetState(a, state) => WithState(db, a, state)
    case SetTurns(a, turns) =>
      if a in db.agents then db.(agents := db.agents[a := db.agents[a].(turns := turns, updated := db.clock)], clock := db.clock + 1)
      else db
    case AddCritic(a) => db.(agents := db.agents[a := Agent(Runnable, 0, db.clock)], clock := db.clock + 1)
    case Ask(a) => db.(questions := db.questions + [Question(a, true)])
    case StartRun(a) => db.(runs := db.runs + [Run(a, true)])
    case EndRun(i) => if i < |db.runs| then db.(runs := db.runs[i := db.runs[i].(open := false)]) else db
    case Activate(t) =>
      var turns := if Worker(t) in db.agents then db.agents[Worker(t)].turns else 0;
      WithTask(db.(agents := db.agents[Worker(t) := Agent(Runnable, turns, db.clock)], clock := db.clock + 1),
               t, InProgress, if t in db.tasks then db.tasks[t].attempts else 0)
  }

  function ApplyAll(db: Db, ws: seq<Write>): Db
    decreases |ws|
  {
    if ws == [] then db else ApplyAll(Apply(db, ws[0]), ws[1..])
  }

  lemma {:induction false} ApplyAppend(db: Db, ws: seq<Write>, ws': seq<Write>)
    ensures ApplyAll(db, ws + ws') == ApplyAll(ApplyAll(db, ws), ws')
    decreases |ws|
  {
    hide Apply;
    if ws == [] {
      assert ws + ws' == ws';
    } else {
      assert (ws + ws')[1..] == ws[1..] + ws';
      ApplyAppend(Apply(db, ws[0]), ws[1..], ws');
    }
  }

  // --- a session and what surrounds it ------------------------------------------------

  /** The answer of something outside that may also raise an exception. */
  datatype Oracle = Yes | No | Raises

  datatype Integration = Commit | Conflict | Failure

  datatype Verdict = Pass | Rework | Reject | Missing

  /** How a session ended, and what the repository would say if asked. */
  datatype Session = Session(outcome: Outcome, commits: Oracle, checks: Oracle, integration: Integration)

  datatype Outcome =
    | Asked(toOwner: bool)
    | Yielded
    | Failed
    | NoOutcome
    | Deferred
    | Finished(verdict: Verdict)

  datatype Config = Config(maxAttempts: nat)

  // --- handlers -----------------------------------------------------------------------

  function Block(t: string, a: AgentId): seq<Write> {
    [SetStatus(t, Blocked), SetState(a, Waiting)]
  }

  function OnAsk(t: string, a: AgentId, toOwner: bool): seq<Write> {
    (if toOwner then [Ask(a)] else []) + [SetState(a, Waiting), SetStatus(t, Blocked)]
  }

  function OnYield(a: AgentId): seq<Write> {
    [SetState(a, Runnable)]
  }

  function OnFail(cfg: Config, t: string, attempts: nat, a: AgentId): seq<Write> {
    [SetAttempts(t, attempts + 1)] + if attempts + 1 >= cfg.maxAttempts then Block(t, a) else [SetState(a, Runnable)]
  }

  /** Back to the worker; a merge conflict does not count as an attempt. */
  function ReworkWrites(cfg: Config, t: string, attempts: nat, a: AgentId, attempt: bool): seq<Write> {
    var n := attempts + if attempt then 1 else 0;
    [Reopen(t, n)] + if n >= cfg.maxAttempts then Block(t, a) else [SetState(Worker(t), Runnable)]
  }

  function Reviews(agents: map<AgentId, Agent>, t: string): set<AgentId> {
    set a | a in agents && a.Critic? && a.task == t
  }

  function NextCritic(agents: map<AgentId, Agent>, t: string): AgentId {
    Critic(t, |Reviews(agents, t)| + 1)
  }

  lemma SameNextCritic(agents: map<AgentId, Agent>, agents': map<AgentId, Agent>, t: string)
    requires agents'.Keys == agents.Keys
    ensures NextCritic(agents', t) == NextCritic(agents, t)
  {
    assert Reviews(agents', t) == Reviews(agents, t);
  }

  function OnWorkerDone(cfg: Config, db: Db, t: string, attempts: nat, a: AgentId, s: Session): seq<Write> {
    if s.commits == Raises then Block(t, a)
    else if s.commits == No then ReworkWrites(cfg, t, attempts, a, true)
    else if s.checks == Raises then Block(t, a)
    else if s.checks == No then ReworkWrites(cfg, t, attempts, a, true)
    else if NextCritic(db.agents, t) in db.agents then Block(t, a)
    else [AddCritic(NextCritic(db.agents, t)), SetState(a, Waiting), SetStatus(t, InReview)]
  }

  function AfterPass(cfg: Config, t: string, attempts: nat, a: AgentId, integration: Integration): seq<Write> {
    match integration
    case Commit => [SetStatus(t, Done), SetState(Worker(t), Stopped)]
    case Conflict => ReworkWrites(cfg, t, attempts, a, false)
    case Failure => Block(t, a)
  }

  function ApplyVerdict(cfg: Config, t: string, attempts: nat, a: AgentId, verdict: Verdict, integration: Integration): seq<Write> {
    if verdict.Missing? then OnFail(cfg, t, attempts, a)
    else
      [SetState(a, Stopped)] +
      if verdict.Pass? then AfterPass(cfg, t, attempts, a, integration)
      else if verdict.Reject? then Block(t, a)
      else ReworkWrites(cfg, t, attempts, a, true)
  }

  function Handler(cfg: Config, db: Db, a: AgentId, s: Session): seq<Write>
    requires a.task in db.tasks && !s.outcome.Deferred?
  {
    var t, attempts := a.task, db.tasks[a.task].attempts;
    match s.outcome
    case Asked(toOwner) => OnAsk(t, a, toOwner)
    case Yielded => OnYield(a)
    case Failed => OnFail(cfg, t, attempts, a)
    case NoOutcome => OnFail(cfg, t, attempts, a)
    case Finished(verdict) =>
      if a.Critic? then ApplyVerdict(cfg, t, attempts, a, verdict, s.integration)
      else OnWorkerDone(cfg, db, t, attempts, a, s)
  }

  /** The run row of a session, and the turn it costs unless the provider deferred it. */
  function SessionWrites(db: Db, a: AgentId, s: Session): seq<Write>
    requires a in db.agents
  {
    [StartRun(a), EndRun(|db.runs|)] + if s.outcome.Deferred? then [] else [SetTurns(a, db.agents[a].turns + 1)]
  }

  predicate BudgetSpent(db: Db, a: AgentId)
    requires a in db.agents && a.task in db.tasks
  {
    db.agents[a].turns >= db.tasks[a.task].budget
  }

  /** Every commit of one turn, in order. */
  function TurnWrites(cfg: Config, db: Db, a: AgentId, s: Session): seq<Write>
    requires a in db.agents && a.task in db.tasks
  {
    if BudgetSpent(db, a) then Block(a.task, a)
    else SessionWrites(db, a, s) + if s.outcome.Deferred? then [] else Handler(cfg, db, a, s)
  }

  /** A selected agent is looked at again under the repository lock before its turn. */
  predicate Eligible(db: Db, a: AgentId) {
    && IsRunnable(db, a) && a.task in db.tasks && RunsClosed(db)
    && db.tasks[a.task].status in {InProgress, InReview, Blocked}
  }

  // --- the owner's transactions ---------------------------------------------------------

  function DoCancel(db: Db, t: string): Db
    requires t in db.tasks
  {
    db.(tasks := db.tasks[t := db.tasks[t].(status := Cancelled)],
        agents := map a | a in db.agents :: if a.task == t then db.agents[a].(state := Stopped, updated := db.clock) else db.agents[a],
        clock := db.clock + 1)
  }

  /** Back to the queue: agents stop, turns and attempts start over, old questions are retired. */
  function DoRequeue(db: Db, t: string, budget: Option<int>): Db
    requires t in db.tasks
  {
    var row := db.tasks[t];
    db.(tasks := db.tasks[t := row.(status := Queued, attempts := 0, budget := if budget.Some? then budget.value else row.budget)],
        agents := map a | a in db.agents :: if a.task == t then db.agents[a].(state := Waiting, turns := 0) else db.agents[a],
        questions := seq(|db.questions|, i requires 0 <= i < |db.questions| =>
          if db.questions[i].sender.task == t then db.questions[i].(open := false) else db.questions[i]))
  }

  function DoAnswer(db: Db, q: nat): Db
    requires q < |db.questions| && db.questions[q].sender.task in db.tasks
  {
    var a := db.questions[q].sender;
    Apply(WithState(db.(questions := db.questions[q := db.questions[q].(open := false)]), a, Runnable), SetStatus(a.task, InProgress))
  }

  /** Every blocked task goes on, its attempts forgotten; a task without a worker row gets none. */
  function DoRetry(db: Db): Db {
    var blocked := set t | t in db.tasks && db.tasks[t].status == Blocked;
    db.(tasks := map t | t in db.tasks :: if t in blocked then db.tasks[t].(status := InProgress, attempts := 0) else db.tasks[t],
        agents := map a | a in db.agents ::
          if a.Worker? && a.task in blocked then db.agents[a].(state := Runnable, updated := db.clock) else db.agents[a],
        clock := db.clock + 1)
  }

  /** Interrupted runs are closed and their agents stop. */
  function DoRecover(db: Db, runs: set<nat>): Db {
    db.(runs := seq(|db.runs|, i requires 0 <= i < |db.runs| => if i in runs then db.runs[i].(open := false) else db.runs[i]),
        agents := map a | a in db.agents ::
          if exists i :: i in runs && i < |db.runs| && db.runs[i].agent == a
          then db.agents[a].(state := Waiting, updated := db.clock) else db.agents[a],
        clock := db.clock + 1)
  }

  // --- steps ----------------------------------------------------------------------------

  /** cut is how many commits a turn got to make; a turn that is not interrupted makes them all. */
  datatype Step =
    | Add(t: string, row: Task)
    | Spawn(t: string)
    | Turn(a: AgentId, session: Session, cut: nat)
    | Cancel(t: string)
    | Requeue(t: string, budget: Option<int>)
    | Answer(q: nat)
    | Rollback(t: string)
    | Retry
    | Recover(runs: set<nat>)

  predicate Answerable(db: Db, q: nat) {
    && q < |db.questions| && db.questions[q].open && db.questions[q].sender in db.agents
    && db.questions[q].sender.task in db.tasks
    && db.tasks[db.questions[q].sender.task].status !in {Done, Cancelled}
  }

  predicate Enabled(db: Db, step: Step) {
    match step
    case Add(t, row) => t !in db.tasks && row.status == Queued && row.attempts == 0 && row.budget >= 1
    case Spawn(t) => Ready(db.tasks, t)
    case Turn(a, _, _) => Eligible(db, a)
    case Cancel(t) =>
      && t in db.tasks && db.tasks[t].status in {Queued, Blocked, Status.Failed}
      && forall i :: 0 <= i < |db.runs| && db.runs[i].agent.task == t ==> !db.runs[i].open
    case Requeue(t, budget) =>
      t in db.tasks && db.tasks[t].status != Done && RunsClosed(db) && (budget.Some? ==> budget.value >= 1)
    case Answer(q) => Answerable(db, q)
    case Rollback(t) => t in db.tasks && db.tasks[t].status == Done && RunsClosed(db)
    case Retry => true
    case Recover(runs) => runs != {} && forall i :: i in runs ==> i < |db.runs| && db.runs[i].open
  }

  function Next(cfg: Config, db: Db, step: Step): Db
    requires Enabled(db, step)
  {
    match step
    case Add(t, row) => db.(tasks := db.tasks[t := row])
    case Spawn(t) => Apply(db, Activate(t))
    case Turn(a, session, cut) =>
      var ws := TurnWrites(cfg, db, a, session);
      ApplyAll(db, if cut < |ws| then ws[..cut] else ws)
    case Cancel(t) => DoCancel(db, t)
    case Requeue(t, budget) => DoRequeue(db, t, budget)
    case Answer(q) => DoAnswer(db, q)
    case Rollback(t) => Apply(db, SetStatus(t, Blocked))
    case Retry => DoRetry(db)
    case Recover(runs) => DoRecover(db, runs)
  }

  predicate CanRun(cfg: Config, db: Db, run: seq<Step>)
    decreases |run|
  {
    run == [] || (Enabled(db, run[0]) && CanRun(cfg, Next(cfg, db, run[0]), run[1..]))
  }

  function After(cfg: Config, db: Db, run: seq<Step>): Db
    requires CanRun(cfg, db, run)
    decreases |run|
  {
    if run == [] then db else After(cfg, Next(cfg, db, run[0]), run[1..])
  }

  /** A turn makes every commit it has to make. */
  predicate Uninterrupted(cfg: Config, db: Db, step: Step)
    requires Enabled(db, step)
  {
    step.Turn? ==> step.cut >= |TurnWrites(cfg, db, step.a, step.session)|
  }

  // --- what a whole turn changes ----------------------------------------------------------

  /** The net effect of a turn on its task and on the task's agents. */
  datatype Change = Change(status: Status, attempts: nat, self: AgentState, worker: Option<AgentState>,
                           turns: nat, created: bool, asked: bool)

  function Fails(cfg: Config, row: Task, turns: nat): Change {
    if row.attempts + 1 >= cfg.maxAttempts then Change(Blocked, row.attempts + 1, Waiting, None, turns, false, false)
    else Change(row.status, row.attempts + 1, Runnable, None, turns, false, false)
  }

  function Reworks(cfg: Config, attempts: nat, a: AgentId, turns: nat): Change {
    if attempts >= cfg.maxAttempts then Change(Blocked, attempts, Waiting, None, turns, false, false)
    else if a.Worker? then Change(InProgress, attempts, Runnable, None, turns, false, false)
    else Change(InProgress, attempts, Stopped, Some(Runnable), turns, false, false)
  }

  function Blocks(row: Task, turns: nat): Change {
    Change(Blocked, row.attempts, Waiting, None, turns, false, false)
  }

  /** The decision table of a turn. */
  function Decision(cfg: Config, db: Db, a: AgentId, s: Session): Change
    requires Eligible(db, a)
  {
    var row, turns := db.tasks[a.task], db.agents[a].turns;
    if BudgetSpent(db, a) then Blocks(row, turns)
    else match s.outcome
      case Deferred => Change(row.status, row.attempts, Runnable, None, turns, false, false)
      case Asked(toOwner) => Change(Blocked, row.attempts, Waiting, None, turns + 1, false, toOwner)
      case Yielded => Change(row.status, row.attempts, Runnable, None, turns + 1, false, false)
      case Failed => Fails(cfg, row, turns + 1)
      case NoOutcome => Fails(cfg, row, turns + 1)
      case Finished(verdict) =>
        if a.Critic? then
          match verdict
          case Missing => Fails(cfg, row, turns + 1)
          case Reject => Blocks(row, turns + 1)
          case Rework => Reworks(cfg, row.attempts + 1, a, turns + 1)
          case Pass =>
            if s.integration.Failure? then Blocks(row, turns + 1)
            else if s.integration.Conflict? then Reworks(cfg, row.attempts, a, turns + 1)
            else Change(Done, row.attempts, Stopped, Some(Stopped), turns + 1, false, false)
        else if s.commits == Raises || (s.commits == Yes && s.checks == Raises) then Blocks(row, turns + 1)
        else if s.commits == No || s.checks == No then Reworks(cfg, row.attempts + 1, a, turns + 1)
        else if NextCritic(db.agents, a.task) in db.agents then Blocks(row, turns + 1)
        else Change(InReview, row.attempts, Waiting, None, turns + 1, true, false)
  }

  ghost predicate Changed(db: Db, db': Db, a: AgentId, c: Change)
    requires a in db.agents && a.task in db.tasks
  {
    var t, next := a.task, NextCritic(db.agents, a.task);
    && db'.tasks == db.tasks[t := db.tasks[t].(status := c.status, attempts := c.attempts)]
    && db'.agents.Keys == db.agents.Keys + (if c.created then {next} else {})
    && db'.agents[a].state == c.self && db'.agents[a].turns == c.turns
    && (forall b :: b in db.agents && b != a && b != Worker(t) ==> db'.agents[b] == db.agents[b])
    && (a.Critic? && Worker(t) in db.agents ==>
          && db'.agents[Worker(t)].turns == db.agents[Worker(t)].turns
          && db'.agents[Worker(t)].state == if c.worker.Some? then c.worker.value else db.agents[Worker(t)].state)
    && (c.created ==> next !in db.agents && db'.agents[next].state == Runnable && db'.agents[next].turns == 0)
    && db'.questions == db.questions + (if c.asked then [Question(a, true)] else [])
  }

  lemma ApplyTwo(db: Db, w: Write, w': Write)
    ensures ApplyAll(db, [w]) == Apply(db, w)
    ensures ApplyAll(db, [w, w']) == Apply(Apply(db, w), w')
  {
    hide Apply;
    assert [w, w'][1..] == [w'] && [w'][1..] == [] && [w][1..] == [];
    assert ApplyAll(db, [w]) == ApplyAll(Apply(db, w), []);
    assert ApplyAll(db, [w, w']) == ApplyAll(Apply(db, w), [w']);
    assert ApplyAll(Apply(db, w), [w']) == ApplyAll(Apply(Apply(db, w), w'), []);
  }

  /** In the middle of a turn: only the task's status and attempts and the agent itself have changed. */
  ghost predicate Mid(db: Db, mid: Db, a: AgentId, status: Status, attempts: nat, self: AgentState, turns: nat)
    requires a in db.agents && a.task in db.tasks
  {
    && mid.tasks == db.tasks[a.task := db.tasks[a.task].(status := status, attempts := attempts)]
    && mid.questions == db.questions && mid.agents.Keys == db.agents.Keys
    && mid.agents[a].state == self && mid.agents[a].turns == turns
    && (forall b :: b in db.agents && b != a ==> mid.agents[b] == db.agents[b])
  }

  /** The agent has run its session; nothing else has changed yet. */
  ghost predicate Ran(db: Db, mid: Db, a: AgentId, turns: nat)
    requires a in db.agents && a.task in db.tasks
  {
    Mid(db, mid, a, db.tasks[a.task].status, db.tasks[a.task].attempts, Runnable, turns)
  }

  lemma TaskEffect(db: Db, mid: Db, a: AgentId, status: Status, attempts: nat, self: AgentState, turns: nat, w: Write)
    requires a in db.agents && a.task in db.tasks && Mid(db, mid, a, status, attempts, self, turns)
    requires (w.SetStatus? || w.SetAttempts? || w.Reopen?) && w.t == a.task
    ensures Mid(db, Apply(mid, w), a, if w.SetStatus? then w.status else if w.Reopen? then InProgress else status,
                if w.SetStatus? then attempts else w.attempts, self, turns)
  {
  }

  lemma SelfEffect(db: Db, mid: Db, a: AgentId, status: Status, attempts: nat, self: AgentState, turns: nat, w: Write)
    requires a in db.agents && a.task in db.tasks && Mid(db, mid, a, status, attempts, self, turns)
    requires (w.SetState? || w.SetTurns?) && w.a == a
    ensures Mid(db, Apply(mid, w), a, status, attempts, if w.SetState? then w.state else self, if w.SetState? then turns else w.turns)
  {
  }

  lemma MidChanged(db: Db, mid: Db, a: AgentId, status: Status, attempts: nat, self: AgentState, turns: nat)
    requires a in db.agents && a.task in db.tasks && Mid(db, mid, a, status, attempts, self, turns)
    ensures Changed(db, mid, a, Change(status, attempts, self, None, turns, false, false))
  {
    hide NextCritic;
  }

  lemma BlockEffect(db: Db, mid: Db, a: AgentId, status: Status, attempts: nat, self: AgentState, turns: nat)
    requires a in db.agents && a.task in db.tasks && Mid(db, mid, a, status, attempts, self, turns)
    ensures Changed(db, ApplyAll(mid, Block(a.task, a)), a, Change(Blocked, attempts, Waiting, None, turns, false, false))
  {
    hide Mid;
    hide Changed;
    hide Apply;
    var w, w' := SetStatus(a.task, Blocked), SetState(a, Waiting);
    ApplyTwo(mid, w, w');
    TaskEffect(db, mid, a, status, attempts, self, turns, w);
    SelfEffect(db, Apply(mid, w), a, Blocked, attempts, self, turns, w');
    MidChanged(db, Apply(Apply(mid, w), w'), a, Blocked, attempts, Waiting, turns);
  }

  lemma FailEffect(cfg: Config, db: Db, mid: Db, a: AgentId, turns: nat)
    requires a in db.agents && a.task in db.tasks && Ran(db, mid, a, turns)
    ensures Changed(db, ApplyAll(mid, OnFail(cfg, a.task, db.tasks[a.task].attempts, a)), a, Fails(cfg, db.tasks[a.task], turns))
  {
    hide Mid;
    hide Changed;
    hide Apply;
    var n, status := db.tasks[a.task].attempts + 1, db.tasks[a.task].status;
    var first, rest := SetAttempts(a.task, n), if n >= cfg.maxAttempts then Block(a.task, a) else [SetState(a, Runnable)];
    ApplyAppend(mid, [first], rest);
    ApplyTwo(mid, first, first);
    TaskEffect(db, mid, a, status, n - 1, Runnable, turns, first);
    if n >= cfg.maxAttempts {
      BlockEffect(db, Apply(mid, first), a, status, n, Runnable, turns);
    } else {
      var last := SetState(a, Runnable);
      ApplyTwo(Apply(mid, first), last, first);
      SelfEffect(db, Apply(mid, first), a, status, n, Runnable, turns, last);
      MidChanged(db, Apply(Apply(mid, first), last), a, status, n, Runnable, turns);
    }
  }

  /** a is the worker, or a critic that has already stopped. */
  lemma ReworkEffect(cfg: Config, db: Db, mid: Db, a: AgentId, self: AgentState, turns: nat, attempt: bool)
    requires a in db.agents && a.task in db.tasks
    requires Mid(db, mid, a, db.tasks[a.task].status, db.tasks[a.task].attempts, self, turns)
    requires a.Critic? ==> self == Stopped
    ensures var n := db.tasks[a.task].attempts + if attempt then 1 else 0;
            Changed(db, ApplyAll(mid, ReworkWrites(cfg, a.task, db.tasks[a.task].attempts, a, attempt)), a, Reworks(cfg, n, a, turns))
  {
    hide Mid;
    hide Changed;
    hide Apply;
    var n := db.tasks[a.task].attempts + if attempt then 1 else 0;
    var last := SetState(Worker(a.task), Runnable);
    var first, rest := Reopen(a.task, n), if n >= cfg.maxAttempts then Block(a.task, a) else [last];
    ApplyAppend(mid, [first], rest);
    ApplyTwo(mid, first, first);
    TaskEffect(db, mid, a, db.tasks[a.task].status, db.tasks[a.task].attempts, self, turns, first);
    if n >= cfg.maxAttempts {
      BlockEffect(db, Apply(mid, first), a, InProgress, n, self, turns);
    } else {
      ApplyTwo(Apply(mid, first), last, first);
      WorkerEffect(db, Apply(mid, first), a, InProgress, n, self, turns, Runnable);
    }
  }

  lemma WorkerEffect(db: Db, mid: Db, a: AgentId, status: Status, attempts: nat, self: AgentState, turns: nat, state: AgentState)
    requires a in db.agents && a.task in db.tasks && Mid(db, mid, a, status, attempts, self, turns)
    ensures Changed(db, Apply(mid, SetState(Worker(a.task), state)), a,
                    Change(status, attempts, if a.Worker? then state else self, if a.Worker? then None else Some(state), turns, false, false))
  {
    hide NextCritic;
  }

  lemma AskEffect(db: Db, mid: Db, a: AgentId, turns: nat, toOwner: bool)
    requires a in db.agents && a.task in db.tasks && Ran(db, mid, a, turns)
    ensures Changed(db, ApplyAll(mid, OnAsk(a.task, a, toOwner)), a,
                    Change(Blocked, db.tasks[a.task].attempts, Waiting, None, turns, false, toOwner))
  {
    hide NextCritic;
    var first: seq<Write> := if toOwner then [Ask(a)] else [];
    var rest := [SetState(a, Waiting), SetStatus(a.task, Blocked)];
    ApplyAppend(mid, first, rest);
    ApplyTwo(mid, Ask(a), Ask(a));
    ApplyTwo(ApplyAll(mid, first), rest[0], rest[1]);
  }

  lemma ReviewEffect(db: Db, mid: Db, a: AgentId, turns: nat)
    requires a in db.agents && a.task in db.tasks && a.Worker? && Ran(db, mid, a, turns)
    requires NextCritic(db.agents, a.task) !in db.agents
    ensures Changed(db, ApplyAll(mid, [AddCritic(NextCritic(db.agents, a.task)), SetState(a, Waiting), SetStatus(a.task, InReview)]), a,
                    Change(InReview, db.tasks[a.task].attempts, Waiting, None, turns, true, false))
  {
    var next := NextCritic(db.agents, a.task);
    var rest := [SetState(a, Waiting), SetStatus(a.task, InReview)];
    ApplyAppend(mid, [AddCritic(next)], rest);
    assert [AddCritic(next)] + rest == [AddCritic(next), SetState(a, Waiting), SetStatus(a.task, InReview)];
    ApplyTwo(mid, AddCritic(next), rest[0]);
    ApplyTwo(Apply(mid, AddCritic(next)), rest[0], rest[1]);
    assert next.task == a.task && next != a;
    hide NextCritic;
  }

  lemma AfterPassEffect(cfg: Config, db: Db, mid: Db, a: AgentId, turns: nat, integration: Integration)
    requires a in db.agents && a.task in db.tasks && a.Critic?
    requires Mid(db, mid, a, db.tasks[a.task].status, db.tasks[a.task].attempts, Stopped, turns)
    ensures var row := db.tasks[a.task];
            Changed(db, ApplyAll(mid, AfterPass(cfg, a.task, row.attempts, a, integration)), a,
                    if integration.Failure? then Blocks(row, turns)
                    else if integration.Conflict? then Reworks(cfg, row.attempts, a, turns)
                    else Change(Done, row.attempts, Stopped, Some(Stopped), turns, false, false))
  {
    hide Mid;
    hide Changed;
    hide Apply;
    var row := db.tasks[a.task];
    match integration
    case Failure => BlockEffect(db, mid, a, row.status, row.attempts, Stopped, turns);
    case Conflict => ReworkEffect(cfg, db, mid, a, Stopped, turns, false);
    case Commit =>
      var w := SetStatus(a.task, Done);
      ApplyTwo(mid, w, SetState(Worker(a.task), Stopped));
      TaskEffect(db, mid, a, row.status, row.attempts, Stopped, turns, w);
      WorkerEffect(db, Apply(mid, w), a, Done, row.attempts, Stopped, turns, Stopped);
  }

  lemma VerdictEffect(cfg: Config, db: Db, mid: Db, a: AgentId, turns: nat, s: Session)
    requires Eligible(db, a) && a.Critic? && !BudgetSpent(db, a) && turns == db.agents[a].turns + 1
    requires s.outcome.Finished? && Ran(db, mid, a, turns)
    ensures Changed(db, ApplyAll(mid, ApplyVerdict(cfg, a.task, db.tasks[a.task].attempts, a, s.outcome.verdict, s.integration)), a,
                    Decision(cfg, db, a, s))
  {
    hide Mid;
    hide Changed;
    hide Apply;
    hide RunsClosed;
    hide NextCritic;
    var t, row, verdict := a.task, db.tasks[a.task], s.outcome.verdict;
    if verdict.Missing? {
      FailEffect(cfg, db, mid, a, turns);
    } else {
      var rest := if verdict.Pass? then AfterPass(cfg, t, row.attempts, a, s.integration)
                  else if verdict.Reject? then Block(t, a)
                  else ReworkWrites(cfg, t, row.attempts, a, true);
      var w := SetState(a, Stopped);
      ApplyAppend(mid, [w], rest);
      ApplyTwo(mid, w, w);
      SelfEffect(db, mid, a, row.status, row.attempts, Runnable, turns, w);
      match verdict
      case Pass => AfterPassEffect(cfg, db, Apply(mid, w), a, turns, s.integration);
      case Reject => BlockEffect(db, Apply(mid, w), a, row.status, row.attempts, Stopped, turns);
      case Rework => ReworkEffect(cfg, db, Apply(mid, w), a, Stopped, turns, true);
    }
  }

  lemma WorkerDoneEffect(cfg: Config, db: Db, mid: Db, a: AgentId, turns: nat, s: Session)
    requires Eligible(db, a) && a.Worker? && !BudgetSpent(db, a) && turns == db.agents[a].turns + 1
    requires s.outcome.Finished? && Ran(db, mid, a, turns)
    ensures Changed(db, ApplyAll(mid, OnWorkerDone(cfg, db, a.task, db.tasks[a.task].attempts, a, s)), a, Decision(cfg, db, a, s))
  {
    hide Mid;
    hide Changed;
    hide RunsClosed;
    hide NextCritic;
    var t, row := a.task, db.tasks[a.task];
    if s.commits == Raises || (s.commits == Yes && s.checks == Raises) {
      BlockEffect(db, mid, a, row.status, row.attempts, Runnable, turns);
    } else if s.commits == No || s.checks == No {
      ReworkEffect(cfg, db, mid, a, Runnable, turns, true);
    } else if NextCritic(db.agents, t) in db.agents {
      BlockEffect(db, mid, a, row.status, row.attempts, Runnable, turns);
    } else {
      ReviewEffect(db, mid, a, turns);
    }
  }

  lemma SessionEffect(db: Db, a: AgentId, s: Session)
    requires Eligible(db, a)
    ensures Ran(db, ApplyAll(db, SessionWrites(db, a, s)), a, db.agents[a].turns + if s.outcome.Deferred? then 0 else 1)
    ensures RunsClosed(ApplyAll(db, SessionWrites(db, a, s)))
    ensures ApplyAll(db, SessionWrites(db, a, s)).runs == db.runs + [Run(a, false)]
  {
    hide Mid;
    var first := [StartRun(a), EndRun(|db.runs|)];
    var last := SetTurns(a, db.agents[a].turns + 1);
    var rest: seq<Write> := if s.outcome.Deferred? then [] else [last];
    ApplyAppend(db, first, rest);
    ApplyTwo(db, first[0], first[1]);
    OpenAndClose(db, a);
    var mid := ApplyAll(db, first);
    hide Apply;
    assert Ran(db, mid, a, db.agents[a].turns) by { NothingYet(db, a); }
    if rest != [] {
      ApplyTwo(mid, last, last);
      SelfEffect(db, mid, a, db.tasks[a.task].status, db.tasks[a.task].attempts, Runnable, db.agents[a].turns, last);
      assert Apply(mid, last).runs == mid.runs by { RunsKept(mid, last); }
    }
  }

  lemma OpenAndClose(db: Db, a: AgentId)
    requires RunsClosed(db)
    ensures Apply(Apply(db, StartRun(a)), EndRun(|db.runs|)) == db.(runs := db.runs + [Run(a, false)])
    ensures RunsClosed(db.(runs := db.runs + [Run(a, false)]))
  {
  }

  lemma RunsKept(db: Db, w: Write)
    requires !w.StartRun? && !w.EndRun?
    ensures Apply(db, w).runs == db.runs
  {
  }

  /** A complete turn does precisely what the decision table says, on any state. */
  lemma TurnEffect(cfg: Config, db: Db, a: AgentId, s: Session)
    requires Eligible(db, a)
    ensures Changed(db, ApplyAll(db, TurnWrites(cfg, db, a, s)), a, Decision(cfg, db, a, s))
  {
    hide Changed;
    hide Mid;
    hide Apply;
    hide RunsClosed;
    hide NextCritic;
    var row, turns := db.tasks[a.task], db.agents[a].turns;
    if BudgetSpent(db, a) {
      assert Mid(db, db, a, row.status, row.attempts, Runnable, turns) by {
        NothingYet(db, a);
        assert db.(runs := db.runs) == db;
      }
      BlockEffect(db, db, a, row.status, row.attempts, Runnable, turns);
    } else {
      var rest := if s.outcome.Deferred? then [] else Handler(cfg, db, a, s);
      ApplyAppend(db, SessionWrites(db, a, s), rest);
      SessionEffect(db, a, s);
      var mid := ApplyAll(db, SessionWrites(db, a, s));
      match s.outcome
      case Deferred => MidChanged(db, mid, a, row.status, row.attempts, Runnable, turns);
      case Asked(toOwner) => AskEffect(db, mid, a, turns + 1, toOwner);
      case Yielded => YieldEffect(db, mid, a, turns + 1);
      case Failed => FailEffect(cfg, db, mid, a, turns + 1);
      case NoOutcome => FailEffect(cfg, db, mid, a, turns + 1);
      case Finished(_) =>
        if a.Critic? { VerdictEffect(cfg, db, mid, a, turns + 1, s); }
        else { WorkerDoneEffect(cfg, db, mid, a, turns + 1, s); }
    }
  }

  /** Every commit that changes an agent's row stamps it with a new time. */
  lemma {:induction false} TouchedIsStamped(db: Db, ws: seq<Write>, a: AgentId)
    requires a in db.agents
    ensures a in ApplyAll(db, ws).agents && ApplyAll(db, ws).clock >= db.clock
    ensures ApplyAll(db, ws).agents[a] == db.agents[a] || ApplyAll(db, ws).agents[a].updated >= db.clock
    decreases |ws|
  {
    if ws != [] {
      var mid := Apply(db, ws[0]);
      assert a in mid.agents && mid.clock >= db.clock && (mid.agents[a] == db.agents[a] || mid.agents[a].updated >= db.clock);
      hide Apply;
      TouchedIsStamped(mid, ws[1..], a);
    }
  }

  /** An agent that has had its turn goes behind all that have waited: nobody else was stamped later than it. */
  lemma TurnGoesBack(cfg: Config, db: Db, a: AgentId, s: Session)
    requires Eligible(db, a) && (BudgetSpent(db, a) || !s.outcome.Deferred?)
    requires forall b :: b in db.agents ==> db.agents[b].updated < db.clock
    ensures var db' := ApplyAll(db, TurnWrites(cfg, db, a, s));
            && a in db'.agents && db'.agents[a].updated >= db.clock
            && forall b :: b in db.agents && b != a && b != Worker(a.task) ==> b in db'.agents && db'.agents[b].updated < db'.agents[a].updated
  {
    TurnEffect(cfg, db, a, s);
    TouchedIsStamped(db, TurnWrites(cfg, db, a, s), a);
    hide TurnWrites;
    hide NextCritic;
    hide RunsClosed;
  }

  lemma NothingYet(db: Db, a: AgentId)
    requires Eligible(db, a)
    ensures forall runs :: Ran(db, db.(runs := runs), a, db.agents[a].turns)
  {
  }

  lemma YieldEffect(db: Db, mid: Db, a: AgentId, turns: nat)
    requires a in db.agents && a.task in db.tasks && Ran(db, mid, a, turns)
    ensures Changed(db, ApplyAll(mid, OnYield(a)), a,
                    Change(db.tasks[a.task].status, db.tasks[a.task].attempts, Runnable, None, turns, false, false))
  {
    ApplyTwo(mid, SetState(a, Runnable), SetState(a, Runnable));
  }
}

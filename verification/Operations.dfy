/** The owner's actions on tasks, agents, questions and runs. Each is one transaction: it either makes
    the whole step of the lifecycle machine or changes nothing. */
module Operations {
  import opened Lifecycle
  import opened Tasks
  import opened Texts
  import opened Wrappers

  datatype OperationError =
    | BlankText
    | UnknownTask
    | ActiveRun
    | WrongStatus
    | AlreadyAccepted
    | UnfinishedRuns
    | BadBudget
    | StaleConfirmation
    | RevertFailed
    | UnknownMessage
    | TaskIsCancelled
    | NotAnswerable
    | BadSelection
    | UnknownRun
    | FinishedRun
    | LiveRun
    | AmbiguousRun
    | NeedsAcknowledgement

  /** What is known about the process behind an open run. */
  datatype Ownership = Gone | Live | Uncertain | LegacyUncertain

  predicate HasOpenRun(db: Db, t: string) {
    exists i :: 0 <= i < |db.runs| && db.runs[i].agent.task == t && db.runs[i].open
  }

  /** Of the tasks, only t is different, and it only in its status, its attempts and its budget. */
  predicate TaskSet(db: Db, db': Db, t: string, status: Status, attempts: nat, budget: int)
    requires t in db.tasks
  {
    && db'.tasks.Keys == db.tasks.Keys && (forall u :: u in db.tasks && u != t ==> db'.tasks[u] == db.tasks[u])
    && var row, row' := db.tasks[t], db'.tasks[t];
       && row'.status == status && row'.attempts == attempts && row'.budget == budget
       && row'.project == row.project && row'.deps == row.deps && row'.priority == row.priority && row'.created == row.created
  }

  /** Of the agents, only the given ones are different; each of them gets the state and, if stamped, a new time. */
  ghost predicate AgentsSet(db: Db, db': Db, which: iset<AgentId>, state: AgentState, stamped: bool) {
    && db'.agents.Keys == db.agents.Keys
    && forall a :: a in db.agents ==>
         if a in which then db'.agents[a].state == state && db'.agents[a].updated == if stamped then db.clock else db.agents[a].updated
         else db'.agents[a] == db.agents[a]
  }

  predicate TurnsKept(db: Db, db': Db) {
    forall a :: a in db.agents && a in db'.agents ==> db'.agents[a].turns == db.agents[a].turns
  }

  ghost function AgentsOf(t: string): iset<AgentId> {
    iset a: AgentId | a.task == t
  }

  predicate Recoverable(db: Db, ids: seq<nat>, owner: nat -> Ownership, acknowledged: bool) {
    && ids != [] && (forall i, j :: 0 <= i < j < |ids| ==> ids[i] != ids[j])
    && forall i :: i in ids ==> i < |db.runs| && db.runs[i].open && !owner(i).Live? && !owner(i).Uncertain?
                                && (owner(i).LegacyUncertain? ==> acknowledged)
  }

  class Operations {
    ghost const cfg: Config
    var db: Db

    constructor (ghost cfg: Config, db: Db)
      ensures this.cfg == cfg && this.db == db
    {
      this.cfg, this.db := cfg, db;
    }

    /** False when the task is cancelled already. */
    method CancelTask(t: string, reason: string) returns (r: Result<bool, OperationError>)
      modifies this`db
      ensures r == Ok(true) <==>
                && !Blank(reason) && t in old(db).tasks && old(db).tasks[t].status in {Queued, Blocked, Status.Failed}
                && forall i :: 0 <= i < |old(db).runs| && old(db).runs[i].agent.task == t ==> !old(db).runs[i].open
      ensures r == Ok(true) ==> Enabled(old(db), Cancel(t)) && db == Next(cfg, old(db), Cancel(t))
      ensures r == Ok(true) ==>
                && TaskSet(old(db), db, t, Cancelled, old(db).tasks[t].attempts, old(db).tasks[t].budget)
                && AgentsSet(old(db), db, AgentsOf(t), Stopped, true) && TurnsKept(old(db), db)
                && db.questions == old(db).questions && db.runs == old(db).runs
      ensures r.Err? ==> r.error == if Blank(reason) then BlankText else if t !in old(db).tasks then UnknownTask
                                    else if HasOpenRun(old(db), t) then ActiveRun else WrongStatus
      ensures r == Ok(false) <==> !Blank(reason) && t in old(db).tasks && !HasOpenRun(old(db), t) && old(db).tasks[t].status == Cancelled
      ensures r != Ok(true) ==> db == old(db)
    {
      if Blank(reason) { return Err(BlankText); }
      if t !in db.tasks { return Err(UnknownTask); }
      if HasOpenRun(db, t) { return Err(ActiveRun); }
      var status := db.tasks[t].status;
      if status == Cancelled { return Ok(false); }
      if status !in {Queued, Blocked, Status.Failed} { return Err(WrongStatus); }
      db := db.(tasks := db.tasks[t := db.tasks[t].(status := Cancelled)]);
      db := db.(agents := map a | a in db.agents ::
                  if a.task == t then db.agents[a].(state := Stopped, updated := db.clock) else db.agents[a],
                clock := db.clock + 1);
      assert db.agents == DoCancel(old(db), t).agents;
      r := Ok(true);
    }

    /** current tells whether the discard the owner confirmed is still what would be discarded. */
    method RequeueTask(t: string, discard: bool, current: bool, budget: Option<int>) returns (r: Result<(), OperationError>)
      modifies this`db
      ensures r.Ok? <==> t in old(db).tasks && old(db).tasks[t].status != Done && (budget.Some? ==> budget.value >= 1)
                         && (forall i :: 0 <= i < |old(db).runs| ==> !old(db).runs[i].open) && (discard ==> current)
      ensures r.Ok? ==> Enabled(old(db), Requeue(t, budget)) && db == Next(cfg, old(db), Requeue(t, budget))
      ensures r.Ok? ==>
                && TaskSet(old(db), db, t, Queued, 0, if budget.Some? then budget.value else old(db).tasks[t].budget)
                && AgentsSet(old(db), db, AgentsOf(t), Waiting, false)
                && (forall a :: a in db.agents ==> db.agents[a].turns == if a.task == t then 0 else old(db).agents[a].turns)
                && |db.questions| == |old(db).questions| && db.runs == old(db).runs
                && forall q :: 0 <= q < |db.questions| ==>
                     && db.questions[q].sender == old(db).questions[q].sender
                     && db.questions[q].open == (old(db).questions[q].open && db.questions[q].sender.task != t)
      ensures r.Err? ==> r.error == if budget.Some? && budget.value < 1 then OperationError.BadBudget
                                    else if t !in old(db).tasks then UnknownTask
                                    else if old(db).tasks[t].status == Done then AlreadyAccepted
                                    else if !RunsClosed(old(db)) then UnfinishedRuns else StaleConfirmation
      ensures r.Err? ==> db == old(db)
    {
      if budget.Some? && budget.value < 1 { return Err(OperationError.BadBudget); }
      if t !in db.tasks { return Err(UnknownTask); }
      if db.tasks[t].status == Done { return Err(AlreadyAccepted); }
      if !RunsClosed(db) { return Err(UnfinishedRuns); }
      if discard && !current { return Err(StaleConfirmation); }
      var row, questions := db.tasks[t], db.questions;
      db := db.(agents := map a | a in db.agents ::
                  if a.task == t then db.agents[a].(state := Waiting, turns := 0) else db.agents[a]);
      db := db.(questions := seq(|questions|, i requires 0 <= i < |questions| =>
                  if questions[i].sender.task == t then questions[i].(open := false) else questions[i]));
      db := db.(tasks := db.tasks[t := row.(status := Queued, attempts := 0,
                                            budget := if budget.Some? then budget.value else row.budget)]);
      assert db.agents == DoRequeue(old(db), t, budget).agents;
      assert db.questions == DoRequeue(old(db), t, budget).questions;
      r := Ok(());
    }

    /** current tells whether the owner confirmed the recorded merge commit, reverts whether git could revert it. */
    method RollbackTask(t: string, current: bool, reverts: bool) returns (r: Result<(), OperationError>)
      modifies this`db
      ensures r.Ok? <==> t in old(db).tasks && old(db).tasks[t].status == Done && current && reverts
                         && forall i :: 0 <= i < |old(db).runs| ==> !old(db).runs[i].open
      ensures r.Ok? ==> Enabled(old(db), Rollback(t)) && db == Next(cfg, old(db), Rollback(t))
      ensures r.Ok? ==>
                && TaskSet(old(db), db, t, Blocked, old(db).tasks[t].attempts, old(db).tasks[t].budget)
                && db.agents == old(db).agents && db.questions == old(db).questions && db.runs == old(db).runs
      ensures r.Err? ==> r.error == if t !in old(db).tasks then UnknownTask else if !RunsClosed(old(db)) then UnfinishedRuns
                                    else if old(db).tasks[t].status != Done then WrongStatus
                                    else if !current then StaleConfirmation else RevertFailed
      ensures r.Err? ==> db == old(db)
    {
      if t !in db.tasks { return Err(UnknownTask); }
      if !RunsClosed(db) { return Err(UnfinishedRuns); }
      if db.tasks[t].status != Done { return Err(WrongStatus); }
      if !current { return Err(StaleConfirmation); }
      if !reverts { return Err(RevertFailed); }
      db := db.(tasks := db.tasks[t := db.tasks[t].(status := Blocked)]);
      r := Ok(());
    }

    method AnswerMessage(q: nat, text: string) returns (r: Result<AgentId, OperationError>)
      modifies this`db
      ensures r.Ok? <==>
                && !Blank(text) && q < |old(db).questions| && old(db).questions[q].open
                && var a := old(db).questions[q].sender;
                   a in old(db).agents && a.task in old(db).tasks && old(db).tasks[a.task].status !in {Done, Cancelled}
      ensures r.Ok? ==> Enabled(old(db), Answer(q)) && db == Next(cfg, old(db), Answer(q)) && r.value == old(db).questions[q].sender
      ensures r.Ok? ==> var t := r.value.task;
                        TaskSet(old(db), db, t, InProgress, old(db).tasks[t].attempts, old(db).tasks[t].budget)
      ensures r.Ok? ==>
                && AgentsSet(old(db), db, iset{r.value}, Runnable, true) && TurnsKept(old(db), db)
                && db.questions == old(db).questions[q := Question(r.value, false)] && db.runs == old(db).runs
      ensures r.Err? ==> r.error == if Blank(text) then BlankText else if q >= |old(db).questions| then UnknownMessage
                                    else if var t := old(db).questions[q].sender.task;
                                            t in old(db).tasks && old(db).tasks[t].status == Cancelled then TaskIsCancelled
                                    else NotAnswerable
      ensures r.Err? ==> db == old(db)
    {
      if Blank(text) { return Err(BlankText); }
      if q >= |db.questions| { return Err(UnknownMessage); }
      var a := db.questions[q].sender;
      if a.task in db.tasks && db.tasks[a.task].status == Cancelled { return Err(TaskIsCancelled); }
      if !Answerable(db, q) { return Err(NotAnswerable); }
      db := db.(questions := db.questions[q := db.questions[q].(open := false)]);
      db := db.(agents := db.agents[a := db.agents[a].(state := Runnable, updated := db.clock)], clock := db.clock + 1);
      db := db.(tasks := db.tasks[a.task := db.tasks[a.task].(status := InProgress)]);
      r := Ok(a);
    }

    /** Makes the workers of all blocked tasks runnable again. */
    method RetryBlockedTasks() returns (ids: seq<string>)
      modifies this`db
      ensures db == Next(cfg, old(db), Retry)
      ensures forall t :: t in ids <==> t in old(db).tasks && old(db).tasks[t].status == Blocked
      ensures db.tasks.Keys == old(db).tasks.Keys
      ensures forall t :: t in db.tasks ==>
                db.tasks[t] == if t in ids then old(db).tasks[t].(status := InProgress, attempts := 0) else old(db).tasks[t]
      ensures AgentsSet(old(db), db, iset t | t in ids :: Worker(t), Runnable, true) && TurnsKept(old(db), db)
      ensures db.questions == old(db).questions && db.runs == old(db).runs
    {
      hide Retried;
      ids := [];
      var now := db.clock;
      var blocked := BlockedTasks(db);
      var left := blocked;
      RetriedEnds(db);
      assert blocked - left == {};
      while left != {}
        invariant left <= blocked && forall t :: t in ids <==> t in blocked && t !in left
        invariant db == Retried(old(db), blocked - left, now)
        decreases left
      {
        var t :| t in left;
        RetriedOne(old(db), blocked - left, t, now);
        RetryOne(t, now);
        assert blocked - (left - {t}) == blocked - left + {t};
        left := left - {t};
        ids := ids + [t];
      }
      assert blocked - left == blocked;
      db := db.(clock := now + 1);
    }

    method RetryOne(t: string, now: nat)
      requires t in db.tasks
      modifies this`db
      ensures db == RetriedRow(old(db), t, now)
    {
      db := db.(tasks := db.tasks[t := db.tasks[t].(status := InProgress, attempts := 0)]);
      if Worker(t) in db.agents {
        db := db.(agents := db.agents[Worker(t) := db.agents[Worker(t)].(state := Runnable, updated := now)]);
      }
    }

    /** Closes selected interrupted runs; one that may still be alive refuses the whole selection. */
    method RecoverRuns(ids: seq<nat>, reason: string, owner: nat -> Ownership, acknowledged: bool) returns (r: Result<(), OperationError>)
      modifies this`db
      ensures r.Ok? <==> !Blank(reason) && Recoverable(old(db), ids, owner, acknowledged)
      ensures r.Ok? ==> Enabled(old(db), Recover(set i | i in ids)) && db == Next(cfg, old(db), Recover(set i | i in ids))
      ensures r.Ok? ==>
                && AgentsSet(old(db), db, iset i | i in ids :: old(db).runs[i].agent, Waiting, true) && TurnsKept(old(db), db)
                && db.tasks == old(db).tasks && db.questions == old(db).questions && |db.runs| == |old(db).runs|
                && forall i :: 0 <= i < |db.runs| ==>
                     db.runs[i] == Run(old(db).runs[i].agent, old(db).runs[i].open && i !in ids)
      ensures r.Err? ==> Refused(old(db), ids, reason, owner, acknowledged, r.error)
      ensures r.Err? ==> db == old(db)
    {
      var error := Refusal(ids, reason, owner, acknowledged);
      if error.Some? { return Err(error.value); }
      RecoverEnabled(db, ids, owner, acknowledged);
      var now := db.clock;
      RecoveredNone(db, now);
      for k := 0 to |ids|
        invariant db == Recovered(old(db), ids[..k], now)
      {
        hide Recovered;
        assert ids[k] in ids;
        RecoveredOne(old(db), ids[..k], ids[k], now);
        RecoverOne(ids[k], now);
        assert ids[..k + 1] == ids[..k] + [ids[k]];
      }
      assert ids[..|ids|] == ids;
      db := db.(clock := now + 1);
      RecoveredAll(old(db), ids, now);
      r := Ok(());
    }

    method Refusal(ids: seq<nat>, reason: string, owner: nat -> Ownership, acknowledged: bool) returns (e: Option<OperationError>)
      ensures e.None? <==> !Blank(reason) && Recoverable(db, ids, owner, acknowledged)
      ensures e.Some? ==> Refused(db, ids, reason, owner, acknowledged, e.value)
    {
      if ids == [] || exists i, j :: 0 <= i < j < |ids| && ids[i] == ids[j] { return Some(BadSelection); }
      if Blank(reason) { return Some(BlankText); }
      if exists i :: i in ids && i >= |db.runs| { return Some(UnknownRun); }
      if exists i :: i in ids && !db.runs[i].open { return Some(FinishedRun); }
      if exists i :: i in ids && owner(i).Live? { return Some(LiveRun); }
      if exists i :: i in ids && owner(i).Uncertain? { return Some(AmbiguousRun); }
      if !acknowledged && exists i :: i in ids && owner(i).LegacyUncertain? { return Some(NeedsAcknowledgement); }
      e := None;
    }

    method RecoverOne(i: nat, now: nat)
      requires i < |db.runs|
      modifies this`db
      ensures db == RecoveredRow(old(db), i, now)
    {
      var a := db.runs[i].agent;
      db := db.(runs := db.runs[i := db.runs[i].(open := false)]);
      if a in db.agents { db := db.(agents := db.agents[a := db.agents[a].(state := Waiting, updated := now)]); }
    }
  }

  /** The first reason against a selection. */
  predicate Refused(db: Db, ids: seq<nat>, reason: string, owner: nat -> Ownership, acknowledged: bool, e: OperationError) {
    if ids == [] || exists i, j :: 0 <= i < j < |ids| && ids[i] == ids[j] then e == BadSelection
    else if Blank(reason) then e == BlankText
    else if exists i :: i in ids && i >= |db.runs| then e == UnknownRun
    else if exists i :: i in ids && !db.runs[i].open then e == FinishedRun
    else if exists i :: i in ids && owner(i).Live? then e == LiveRun
    else if exists i :: i in ids && owner(i).Uncertain? then e == AmbiguousRun
    else e == NeedsAcknowledgement
  }

  // --- the loops over rows -----------------------------------------------------------------

  function RetriedRow(db: Db, t: string, now: nat): Db
    requires t in db.tasks
  {
    var mid := db.(tasks := db.tasks[t := db.tasks[t].(status := InProgress, attempts := 0)]);
    if Worker(t) in db.agents then
      mid.(agents := db.agents[Worker(t) := db.agents[Worker(t)].(state := Runnable, updated := now)])
    else mid
  }

  /** Some of the tasks have been retried. */
  function Retried(db: Db, some: set<string>, now: nat): Db {
    db.(tasks := map t | t in db.tasks :: if t in some then db.tasks[t].(status := InProgress, attempts := 0) else db.tasks[t],
        agents := map a | a in db.agents ::
          if a.Worker? && a.task in some then db.agents[a].(state := Runnable, updated := now) else db.agents[a])
  }

  function BlockedTasks(db: Db): set<string> {
    set t | t in db.tasks && db.tasks[t].status == Blocked
  }

  lemma RetriedEnds(db: Db)
    ensures Retried(db, {}, db.clock) == db
    ensures Retried(db, BlockedTasks(db), db.clock).(clock := db.clock + 1) == DoRetry(db)
  {
    var a, b := Retried(db, {}, db.clock), Retried(db, BlockedTasks(db), db.clock).(clock := db.clock + 1);
    assert a.tasks == db.tasks && a.agents == db.agents;
    assert b.tasks == DoRetry(db).tasks && b.agents == DoRetry(db).agents;
  }

  lemma RetriedOne(db: Db, some: set<string>, t: string, now: nat)
    requires t in db.tasks && t !in some
    ensures t in Retried(db, some, now).tasks && RetriedRow(Retried(db, some, now), t, now) == Retried(db, some + {t}, now)
  {
    var a, b := RetriedRow(Retried(db, some, now), t, now), Retried(db, some + {t}, now);
    assert a.tasks == b.tasks;
    assert a.agents == b.agents;
  }

  function RecoveredRow(db: Db, i: nat, now: nat): Db
    requires i < |db.runs|
  {
    var a, mid := db.runs[i].agent, db.(runs := db.runs[i := db.runs[i].(open := false)]);
    if a in db.agents then mid.(agents := db.agents[a := db.agents[a].(state := Waiting, updated := now)]) else mid
  }

  /** Some of the runs have been recovered. */
  function Recovered(db: Db, ids: seq<nat>, now: nat): Db {
    db.(runs := seq(|db.runs|, i requires 0 <= i < |db.runs| => if i in ids then db.runs[i].(open := false) else db.runs[i]),
        agents := map a | a in db.agents :: if RanIn(db, ids, a) then db.agents[a].(state := Waiting, updated := now) else db.agents[a])
  }

  lemma RecoveredNone(db: Db, now: nat)
    ensures Recovered(db, [], now) == db
  {
    assert Recovered(db, [], now).runs == db.runs && Recovered(db, [], now).agents == db.agents;
  }

  lemma RecoverEnabled(db: Db, ids: seq<nat>, owner: nat -> Ownership, acknowledged: bool)
    requires Recoverable(db, ids, owner, acknowledged)
    ensures Enabled(db, Recover(set i | i in ids))
  {
    var runs := set i | i in ids;
    assert ids[0] in runs;
    assert runs != {};
  }

  lemma RecoveredOne(db: Db, ids: seq<nat>, i: nat, now: nat)
    requires i < |db.runs|
    ensures i < |Recovered(db, ids, now).runs| && RecoveredRow(Recovered(db, ids, now), i, now) == Recovered(db, ids + [i], now)
  {
    var a, b := RecoveredRow(Recovered(db, ids, now), i, now), Recovered(db, ids + [i], now);
    forall r | r in db.agents ensures RanIn(db, ids + [i], r) <==> RanIn(db, ids, r) || db.runs[i].agent == r {
      if db.runs[i].agent == r { assert i in ids + [i]; }
      if RanIn(db, ids, r) {
        var j :| j in ids && j < |db.runs| && db.runs[j].agent == r;
        assert j in ids + [i];
      }
    }
    hide RanIn;
    assert a.runs == b.runs;
    assert a.agents == b.agents;
  }

  lemma RecoveredAll(db: Db, ids: seq<nat>, now: nat)
    requires now == db.clock
    ensures Recovered(db, ids, now).(clock := now + 1) == DoRecover(db, set i | i in ids)
  {
    var a, b := Recovered(db, ids, now).(clock := now + 1), DoRecover(db, set i | i in ids);
    assert a.runs == b.runs;
    forall r | r in db.agents ensures a.agents[r] == b.agents[r] {
      assert RanIn(db, ids, r) <==> exists i :: i in (set j | j in ids) && i < |db.runs| && db.runs[i].agent == r;
    }
    assert a.agents == b.agents;
  }

  predicate RanIn(db: Db, ids: seq<nat>, a: AgentId) {
    exists i :: i in ids && i < |db.runs| && db.runs[i].agent == a
  }
}

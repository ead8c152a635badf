/** The cooperative scheduler: it picks one agent, gives it one turn, applies the outcome, and repeats. */
module Scheduler {
  import opened Digraph
  import Lifecycle
  import opened LifecycleSafety
  import opened Planning
  import opened TaskIds
  import opened Tasks
  import opened Termination
  import opened Texts
  import opened Wrappers

  type AgentId = Lifecycle.AgentId

  datatype Preflight = Fine | Postponed | Broken

  /** All that one pass of the loop learns from outside. */
  datatype Input = Input(retryLater: bool, stopped: bool, preflight: Preflight,
                         session: Lifecycle.Session, plan: PlanOutcome, review: ReviewOutcome)

  datatype Choice = Nobody | Work(a: AgentId) | Plan(project: string)

  datatype Result = Idle | Deferred | PreflightFailed | Stepped

  datatype Limits = Limits(pending: nat, queued: nat, failures: nat)

  /** Why the loop ended. */
  datatype Why = NotReady | RetryLater | Stopped | WasDeferred | WasBroken | WasIdle | Tripped | TurnsUsed

  /** A runnable worker or critic of a task that is not cancelled. */
  predicate Candidate(db: Lifecycle.Db, a: AgentId) {
    Lifecycle.IsRunnable(db, a) && a.task in db.tasks && db.tasks[a.task].status != Cancelled
  }

  /** The id under which an agent is stored. */
  function StoredId(a: AgentId): string {
    match a
    case Worker(t) => "worker-" + t
    case Critic(t, n) => "critic-" + t + "-" + Decimal(n)
  }

  /** Critics first, then task priority, then the older task, then the longer untouched agent, then the id. */
  predicate Before(db: Lifecycle.Db, a: AgentId, b: AgentId)
    requires Candidate(db, a) && Candidate(db, b)
  {
    var s, t, u, v := db.tasks[a.task], db.tasks[b.task], db.agents[a].updated, db.agents[b].updated;
    if a.Critic? != b.Critic? then a.Critic?
    else if s.priority != t.priority then s.priority < t.priority
    else if s.created != t.created then s.created < t.created
    else if u != v then u < v
    else LexLess(StoredId(a), StoredId(b))
  }

  lemma BeforeTransitive(db: Lifecycle.Db, a: AgentId, b: AgentId, c: AgentId)
    requires Candidate(db, a) && Candidate(db, b) && Candidate(db, c) && Before(db, a, b) && Before(db, b, c)
    ensures Before(db, a, c)
  {
    hide StoredId;
    hide LexLess;
    if LexLess(StoredId(a), StoredId(b)) && LexLess(StoredId(b), StoredId(c)) {
      LexTransitive(StoredId(a), StoredId(b), StoredId(c));
    }
  }

  /** Two candidates neither of which comes first have the same id. */
  lemma BeforeTotal(db: Lifecycle.Db, a: AgentId, b: AgentId)
    requires Candidate(db, a) && Candidate(db, b)
    ensures Before(db, a, b) || Before(db, b, a) || StoredId(a) == StoredId(b)
    ensures !(Before(db, a, b) && Before(db, b, a)) && !Before(db, a, a)
  {
    hide StoredId;
    hide LexLess;
    LexTotal(StoredId(a), StoredId(b));
    LexTotal(StoredId(a), StoredId(a));
  }

  predicate Earlier(s: Task, t: Task) {
    if s.priority != t.priority then s.priority < t.priority else s.created < t.created
  }

  ghost predicate Best(db: Lifecycle.Db, a: AgentId) {
    Candidate(db, a) && forall b: AgentId :: Candidate(db, b) ==> !Before(db, b, a)
  }

  /** What the best candidate has over any other one. */
  lemma BestComesFirst(db: Lifecycle.Db, a: AgentId, b: AgentId)
    requires Best(db, a) && Candidate(db, b) && b != a
    ensures Lifecycle.IsRunnable(db, a) && db.tasks[a.task].status != Cancelled
    ensures b.Critic? ==> a.Critic?
    ensures var s, t := db.tasks[a.task], db.tasks[b.task];
            a.Critic? == b.Critic? ==>
              && s.priority <= t.priority
              && (s.priority == t.priority ==> s.created <= t.created)
              && (s.priority == t.priority && s.created == t.created ==> db.agents[a].updated <= db.agents[b].updated)
              && (s.priority == t.priority && s.created == t.created && db.agents[a].updated == db.agents[b].updated ==>
                    LexLess(StoredId(a), StoredId(b)))
  {
    hide StoredId;
    hide LexLess;
    BeforeTotal(db, a, b);
    if StoredId(a) == StoredId(b) { StoredIdInjective(a, b); }
  }

  lemma BestIsUnique(db: Lifecycle.Db, a: AgentId, b: AgentId)
    requires Best(db, a) && Best(db, b)
    ensures a == b
  {
    hide StoredId;
    hide LexLess;
    BeforeTotal(db, a, b);
    if StoredId(a) == StoredId(b) { StoredIdInjective(a, b); }
  }

  lemma LastDashEndsTask(t: string, d: string, u: string, e: string)
    requires Digits(d) && Digits(e) && t + "-" + d == u + "-" + e
    ensures |t| <= |u|
  {
    var s := u + "-" + e;
    assert s[|t|] == '-' by { assert (t + "-" + d)[|t|] == '-'; }
    assert s[|u| + 1..] == e;
    assert forall k :: |u| + 1 <= k < |s| ==> s[k] == s[|u| + 1..][k - (|u| + 1)];
  }

  lemma SamePrefix(x: string, a: string, b: string)
    requires x + a == x + b
    ensures a == b
  {
    assert (x + a)[|x|..] == a && (x + b)[|x|..] == b;
  }

  lemma DashedInjective(t: string, d: string, u: string, e: string)
    requires Digits(d) && Digits(e) && t + "-" + d == u + "-" + e
    ensures t == u && d == e
  {
    LastDashEndsTask(t, d, u, e);
    LastDashEndsTask(u, e, t, d);
    assert t == (t + "-" + d)[..|t|] == u;
    SamePrefix(t + "-", d, e);
  }

  lemma CriticIdInjective(t: string, m: nat, u: string, n: nat)
    requires "critic-" + t + "-" + Decimal(m) == "critic-" + u + "-" + Decimal(n)
    ensures t == u && m == n
  {
    var d, e := Decimal(m), Decimal(n);
    hide Decimal;
    assert "critic-" + (t + "-" + d) == "critic-" + t + "-" + d && "critic-" + (u + "-" + e) == "critic-" + u + "-" + e;
    SamePrefix("critic-", t + "-" + d, u + "-" + e);
    DashedInjective(t, d, u, e);
  }

  /** No two agents are stored under the same id. */
  lemma StoredIdInjective(a: AgentId, b: AgentId)
    requires StoredId(a) == StoredId(b)
    ensures a == b
  {
    assert StoredId(a)[0] == if a.Worker? then 'w' else 'c';
    assert StoredId(b)[0] == if b.Worker? then 'w' else 'c';
    if a.Worker? {
      assert StoredId(a)[7..] == a.task && StoredId(b)[7..] == b.task;
    } else {
      CriticIdInjective(a.task, a.n, b.task, b.n);
    }
  }

  /** First in priority and creation order among the queued tasks whose dependencies are all accepted. */
  ghost predicate FirstReady(tasks: map<string, Task>, t: string) {
    && Ready(tasks, t)
    && forall u :: Ready(tasks, u) ==>
         tasks[t].priority < tasks[u].priority || (tasks[t].priority == tasks[u].priority && tasks[t].created <= tasks[u].created)
  }

  class Scheduler {
    const cfg: Lifecycle.Config
    const limits: Limits
    var db: Lifecycle.Db
    var planners: map<string, Planner>
    var proposals: seq<Proposal>
    var failures: nat
    var stop: bool
    var clock: nat

    constructor (cfg: Lifecycle.Config, limits: Limits, db: Lifecycle.Db, planners: map<string, Planner>, proposals: seq<Proposal>)
      ensures this.cfg == cfg && this.limits == limits && this.db == db
      ensures this.planners == planners && this.proposals == proposals && failures == 0 && !stop
    {
      this.cfg, this.limits, this.db, this.planners, this.proposals := cfg, limits, db, planners, proposals;
      failures, stop, clock := 0, false, 0;
    }

    // --- selection ---------------------------------------------------------------------

    method BestCandidate() returns (best: Option<AgentId>)
      ensures best.None? ==> forall a: AgentId :: !Candidate(db, a)
      ensures best.Some? ==> Best(db, best.value)
    {
      hide Before;
      best := None;
      var left := db.agents.Keys;
      while left != {}
        invariant left <= db.agents.Keys
        invariant best.None? ==> forall a: AgentId :: a in db.agents && a !in left ==> !Candidate(db, a)
        invariant best.Some? ==> Candidate(db, best.value)
        invariant best.Some? ==> forall a: AgentId :: a in db.agents && a !in left && Candidate(db, a) ==> !Before(db, a, best.value)
        decreases left
      {
        var a :| a in left;
        if db.agents[a].state == Lifecycle.Runnable && a.task in db.tasks && db.tasks[a.task].status != Cancelled
           && (best.None? || Before(db, a, best.value)) {
          forall b: AgentId | b in db.agents && b !in left && Candidate(db, b) ensures !Before(db, b, a) {
            if Before(db, b, a) { BeforeTransitive(db, b, a, best.value); }
          }
          BeforeTotal(db, a, a);
          best := Some(a);
        }
        left := left - {a};
      }
    }

    method UnmetDependencies(t: string) returns (unmet: seq<string>)
      ensures forall d :: d in unmet <==> t in db.tasks && d in db.tasks[t].deps && !Accepted(db.tasks, d)
    {
      unmet := [];
      if t !in db.tasks { return; }
      var deps := db.tasks[t].deps;
      for i := 0 to |deps|
        invariant forall d :: d in unmet <==> d in deps[..i] && !Accepted(db.tasks, d)
      {
        if !Accepted(db.tasks, deps[i]) { unmet := unmet + [deps[i]]; }
      }
    }

    /** The queue's next task in priority and creation order. */
    method FirstQueued(left: set<string>) returns (first: string)
      requires left != {} && left <= db.tasks.Keys
      ensures first in left && forall t :: t in left ==> !Earlier(db.tasks[t], db.tasks[first])
    {
      first :| first in left;
      var rest := left - {first};
      while rest != {}
        invariant rest <= left && first in left
        invariant forall t :: t in left && t !in rest ==> !Earlier(db.tasks[t], db.tasks[first])
        decreases rest
      {
        var t :| t in rest;
        if Earlier(db.tasks[t], db.tasks[first]) { first := t; }
        rest := rest - {t};
      }
    }

    method NextReadyTask() returns (next: Option<string>)
      ensures next.None? ==> forall t :: !Ready(db.tasks, t)
      ensures next.Some? ==> FirstReady(db.tasks, next.value)
    {
      var left := set t | t in db.tasks && db.tasks[t].status == Queued;
      while left != {}
        invariant left <= db.tasks.Keys && forall t :: t in left ==> db.tasks[t].status == Queued
        invariant forall t :: Ready(db.tasks, t) ==> t in left
        decreases left
      {
        var t := FirstQueued(left);
        var unmet := UnmetDependencies(t);
        if unmet == [] {
          assert forall d :: d in db.tasks[t].deps ==> d !in unmet;
          return Some(t);
        }
        assert unmet[0] in unmet;
        left := left - {t};
      }
      next := None;
    }

    /** Activates one ready task, if there is one. */
    method SpawnForQueuedTask() returns (spawned: Option<string>)
      modifies this`db
      ensures spawned.None? ==> db == old(db) && forall t :: !Ready(db.tasks, t)
      ensures spawned.Some? ==> FirstReady(old(db).tasks, spawned.value)
                                && db == Lifecycle.Next(cfg, old(db), Lifecycle.Spawn(spawned.value))
      ensures spawned.Some? ==> var t, w := spawned.value, Lifecycle.Worker(spawned.value);
                && db.tasks == old(db).tasks[t := old(db).tasks[t].(status := InProgress)]
                && w in db.agents && db.agents[w].state == Lifecycle.Runnable && db.agents[w].updated == old(db).clock
                && db.agents[w].turns == (if w in old(db).agents then old(db).agents[w].turns else 0)
                && db.agents == old(db).agents[w := db.agents[w]]
                && db.questions == old(db).questions && db.runs == old(db).runs
    {
      spawned := NextReadyTask();
      if spawned.Some? { Commit(Lifecycle.Activate(spawned.value)); }
    }

    method Commit(w: Lifecycle.Write)
      modifies this`db
      ensures db == Lifecycle.Apply(old(db), w)
    {
      db := Lifecycle.Apply(db, w);
    }

    // --- outcome handlers ------------------------------------------------------------------

    method Block(t: string, a: AgentId)
      modifies this`db
      ensures db == Lifecycle.ApplyAll(old(db), Lifecycle.Block(t, a))
    {
      Commit(Lifecycle.SetStatus(t, Blocked));
      Commit(Lifecycle.SetState(a, Lifecycle.Waiting));
      Lifecycle.ApplyTwo(old(db), Lifecycle.SetStatus(t, Blocked), Lifecycle.SetState(a, Lifecycle.Waiting));
    }

    method OnAsk(t: string, a: AgentId, toOwner: bool)
      modifies this`db
      ensures db == Lifecycle.ApplyAll(old(db), Lifecycle.OnAsk(t, a, toOwner))
    {
      hide Lifecycle.Apply;
      var asked: seq<Lifecycle.Write> := if toOwner then [Lifecycle.Ask(a)] else [];
      if toOwner { Commit(Lifecycle.Ask(a)); }
      label Asked:
      Commit(Lifecycle.SetState(a, Lifecycle.Waiting));
      Commit(Lifecycle.SetStatus(t, Blocked));
      Lifecycle.ApplyTwo(old(db), Lifecycle.Ask(a), Lifecycle.Ask(a));
      Lifecycle.ApplyTwo(old@Asked(db), Lifecycle.SetState(a, Lifecycle.Waiting), Lifecycle.SetStatus(t, Blocked));
      Lifecycle.ApplyAppend(old(db), asked, [Lifecycle.SetState(a, Lifecycle.Waiting), Lifecycle.SetStatus(t, Blocked)]);
    }

    method OnYield(a: AgentId)
      modifies this`db
      ensures db == Lifecycle.ApplyAll(old(db), Lifecycle.OnYield(a))
    {
      Commit(Lifecycle.SetState(a, Lifecycle.Runnable));
      Lifecycle.ApplyTwo(old(db), Lifecycle.SetState(a, Lifecycle.Runnable), Lifecycle.SetState(a, Lifecycle.Runnable));
    }

    method OnFail(t: string, attempts: nat, a: AgentId)
      modifies this`db
      ensures db == Lifecycle.ApplyAll(old(db), Lifecycle.OnFail(cfg, t, attempts, a))
    {
      hide Lifecycle.Apply;
      hide Lifecycle.ApplyAll;
      var first := Lifecycle.SetAttempts(t, attempts + 1);
      Commit(first);
      Lifecycle.ApplyTwo(old(db), first, first);
      if attempts + 1 >= cfg.maxAttempts {
        Block(t, a);
        Lifecycle.ApplyAppend(old(db), [first], Lifecycle.Block(t, a));
      } else {
        OnYield(a);
        Lifecycle.ApplyAppend(old(db), [first], Lifecycle.OnYield(a));
      }
    }

    method Rework(t: string, before: nat, a: AgentId, attempt: bool)
      modifies this`db
      ensures db == Lifecycle.ApplyAll(old(db), Lifecycle.ReworkWrites(cfg, t, before, a, attempt))
    {
      hide Lifecycle.Apply;
      hide Lifecycle.ApplyAll;
      var attempts := before + if attempt then 1 else 0;
      var first := Lifecycle.Reopen(t, attempts);
      Commit(first);
      Lifecycle.ApplyTwo(old(db), first, first);
      if attempts >= cfg.maxAttempts {
        Block(t, a);
        Lifecycle.ApplyAppend(old(db), [first], Lifecycle.Block(t, a));
      } else {
        OnYield(Lifecycle.Worker(t));
        Lifecycle.ApplyAppend(old(db), [first], Lifecycle.OnYield(Lifecycle.Worker(t)));
      }
    }

    method Integrate(t: string, attempts: nat, a: AgentId, integration: Lifecycle.Integration)
      modifies this`db
      ensures db == Lifecycle.ApplyAll(old(db), Lifecycle.AfterPass(cfg, t, attempts, a, integration))
    {
      hide Lifecycle.Apply;
      hide Lifecycle.ApplyAll;
      match integration
      case Commit =>
        Commit(Lifecycle.SetStatus(t, Done));
        Commit(Lifecycle.SetState(Lifecycle.Worker(t), Lifecycle.Stopped));
        Lifecycle.ApplyTwo(old(db), Lifecycle.SetStatus(t, Done), Lifecycle.SetState(Lifecycle.Worker(t), Lifecycle.Stopped));
      case Conflict => Rework(t, attempts, a, false);
      case Failure => Block(t, a);
    }

    method ApplyVerdict(t: string, attempts: nat, a: AgentId, verdict: Lifecycle.Verdict, integration: Lifecycle.Integration)
      modifies this`db, this`failures
      ensures db == Lifecycle.ApplyAll(old(db), Lifecycle.ApplyVerdict(cfg, t, attempts, a, verdict, integration))
      ensures failures == old(failures) + if verdict.Missing? || (verdict.Pass? && integration.Failure?) then 1 else 0
    {
      hide Lifecycle.Apply;
      hide Lifecycle.ApplyAll;
      if verdict.Missing? {
        failures := failures + 1;
        OnFail(t, attempts, a);
        return;
      }
      var first := Lifecycle.SetState(a, Lifecycle.Stopped);
      Commit(first);
      Lifecycle.ApplyTwo(old(db), first, first);
      if verdict.Pass? {
        Integrate(t, attempts, a, integration);
        if integration.Failure? { failures := failures + 1; }
        Lifecycle.ApplyAppend(old(db), [first], Lifecycle.AfterPass(cfg, t, attempts, a, integration));
      } else if verdict.Reject? {
        Block(t, a);
        Lifecycle.ApplyAppend(old(db), [first], Lifecycle.Block(t, a));
      } else {
        Rework(t, attempts, a, true);
        Lifecycle.ApplyAppend(old(db), [first], Lifecycle.ReworkWrites(cfg, t, attempts, a, true));
      }
    }

    /** The worker says it is done; an exception from the repository or from a check blocks the task. */
    method OnWorkerDone(t: string, attempts: nat, a: AgentId, s: Lifecycle.Session)
      requires s.outcome.Finished?
      modifies this`db, this`failures
      ensures db == Lifecycle.ApplyAll(old(db), Lifecycle.OnWorkerDone(cfg, old(db), t, attempts, a, s))
      ensures failures == old(failures) + if Raised(old(db), t, s) then 1 else 0
    {
      hide Lifecycle.Apply;
      hide Lifecycle.ApplyAll;
      hide Lifecycle.Reviews;
      if s.commits == Lifecycle.Raises {
        Block(t, a);
        failures := failures + 1;
      } else if s.commits == Lifecycle.No {
        Rework(t, attempts, a, true);
      } else if s.checks == Lifecycle.Raises {
        Block(t, a);
        failures := failures + 1;
      } else if s.checks == Lifecycle.No {
        Rework(t, attempts, a, true);
      } else {
        var critic := Lifecycle.NextCritic(db.agents, t);
        if critic in db.agents {
          Block(t, a);
          failures := failures + 1;
        } else {
          Commit(Lifecycle.AddCritic(critic));
          Commit(Lifecycle.SetState(a, Lifecycle.Waiting));
          Commit(Lifecycle.SetStatus(t, InReview));
          ThreeCommits(old(db), Lifecycle.AddCritic(critic), Lifecycle.SetState(a, Lifecycle.Waiting), Lifecycle.SetStatus(t, InReview));
        }
      }
    }

    // --- one turn -------------------------------------------------------------------------

    /** The session's run row, and the turn it costs unless it was deferred. */
    method RunTurn(a: AgentId, s: Lifecycle.Session)
      requires a in db.agents
      modifies this`db
      ensures db == Lifecycle.ApplyAll(old(db), Lifecycle.SessionWrites(old(db), a, s))
      ensures db.tasks == old(db).tasks && db.agents.Keys == old(db).agents.Keys
    {
      var turns, i := db.agents[a].turns, |db.runs|;
      Commit(Lifecycle.StartRun(a));
      Commit(Lifecycle.EndRun(i));
      Lifecycle.ApplyTwo(old(db), Lifecycle.StartRun(a), Lifecycle.EndRun(i));
      label Ended:
      var last: seq<Lifecycle.Write> := [];
      if !s.outcome.Deferred? {
        Commit(Lifecycle.SetTurns(a, turns + 1));
        Lifecycle.ApplyTwo(old@Ended(db), Lifecycle.SetTurns(a, turns + 1), Lifecycle.SetTurns(a, turns + 1));
        last := [Lifecycle.SetTurns(a, turns + 1)];
      }
      Lifecycle.ApplyAppend(old(db), [Lifecycle.StartRun(a), Lifecycle.EndRun(i)], last);
    }

    /** before is the state the task row was read in. */
    method Handle(a: AgentId, s: Lifecycle.Session, ghost before: Lifecycle.Db)
      requires a.task in db.tasks && !s.outcome.Deferred?
      requires before.tasks == db.tasks && before.agents.Keys == db.agents.Keys
      modifies this`db, this`failures
      ensures db == Lifecycle.ApplyAll(old(db), Lifecycle.Handler(cfg, before, a, s))
      ensures failures == Counted(MarkOf(before, a, s), old(failures))
    {
      hide Lifecycle.Apply;
      hide Lifecycle.ApplyAll;
      var t, attempts := a.task, db.tasks[a.task].attempts;
      Lifecycle.SameNextCritic(before.agents, db.agents, t);
      hide Lifecycle.NextCritic;
      failures := if s.outcome.Failed? || s.outcome.NoOutcome? then failures + 1 else 0;
      match s.outcome
      case Asked(toOwner) => OnAsk(t, a, toOwner);
      case Yielded => OnYield(a);
      case Failed => OnFail(t, attempts, a);
      case NoOutcome => OnFail(t, attempts, a);
      case Finished(verdict) =>
        if a.Critic? { ApplyVerdict(t, attempts, a, verdict, s.integration); } else { OnWorkerDone(t, attempts, a, s); }
    }

    method TaskTurn(a: AgentId, s: Lifecycle.Session, preflight: Preflight) returns (r: Result)
      requires Lifecycle.Eligible(db, a)
      modifies this`db, this`failures
      ensures !preflight.Fine? ==> db == old(db) && failures == old(failures)
                                   && r == if preflight.Postponed? then Deferred else PreflightFailed
      ensures preflight.Fine? ==>
                && db == Lifecycle.ApplyAll(old(db), Lifecycle.TurnWrites(cfg, old(db), a, s))
                && (r == if Defers(old(db), a, s) then Deferred else Stepped)
                && failures == Counted(if Lifecycle.BudgetSpent(old(db), a) then Unmarked else MarkOf(old(db), a, s), old(failures))
    {
      hide Lifecycle.Apply;
      hide Lifecycle.ApplyAll;
      hide Lifecycle.RunsClosed;
      hide Lifecycle.Handler;
      hide MarkOf;
      if !preflight.Fine? { return if preflight.Postponed? then Deferred else PreflightFailed; }
      if Lifecycle.BudgetSpent(db, a) {
        Block(a.task, a);
        return Stepped;
      }
      RunTurn(a, s);
      if s.outcome.Deferred? {
        assert Lifecycle.SessionWrites(old(db), a, s) + [] == Lifecycle.SessionWrites(old(db), a, s);
        DeferredUnmarked(old(db), a, s);
        return Deferred;
      }
      Handle(a, s, old(db));
      Lifecycle.ApplyAppend(old(db), Lifecycle.SessionWrites(old(db), a, s), Lifecycle.Handler(cfg, old(db), a, s));
      r := Stepped;
    }

    // --- planning -------------------------------------------------------------------------

    /** Sets a planner's state, which stamps its row. */
    method SetPlanner(p: string, state: PlannerState)
      requires p in planners
      modifies this`planners, this`clock
      ensures planners == old(planners)[p := old(planners)[p].(state := state, updated := old(clock))]
    {
      planners := planners[p := planners[p].(state := state, updated := clock)];
      clock := clock + 1;
    }

    /** The longest untouched of some planners, by id when several are. */
    method Oldest(rows: map<string, Planner>, left: set<string>) returns (first: string)
      requires left != {} && left <= rows.Keys
      ensures first in left && forall p :: p in left && p != first ==> Older(rows, first, p)
    {
      hide Older;
      first :| first in left;
      var rest := left - {first};
      while rest != {}
        invariant rest <= left && first in left && first !in rest
        invariant forall p :: p in left && p !in rest && p != first ==> Older(rows, first, p)
        decreases rest
      {
        var p :| p in rest;
        OlderTotal(rows, first, p);
        if Older(rows, p, first) {
          forall q | q in left && q !in rest && q != first ensures Older(rows, p, q) {
            OlderTransitive(rows, p, first, q);
          }
          first := p;
        }
        rest := rest - {p};
      }
    }

    /** Puts planners that have to wait on hold, and wakes the longest untouched one that need not. */
    method PickPlanner(busy: bool) returns (chosen: Option<string>)
      modifies this`planners, this`clock
      ensures HeldRows(limits, proposals, db.tasks, busy, old(planners), planners, chosen)
    {
      hide SoFar;
      chosen := None;
      var rows := planners;
      var left := set p | p in rows && Going(rows[p]);
      ghost var waits := set p | p in left && MustWait(limits, proposals, db.tasks, p, busy);
      assert SoFar(rows, planners, left, waits, chosen) by { NothingPicked(rows, left, waits); }
      while left != {}
        invariant rows == old(planners) && left <= rows.Keys && SoFar(rows, planners, left, waits, chosen)
        decreases left
      {
        var p := Oldest(rows, left);
        assert p in planners && planners[p] == rows[p] && Going(rows[p]) && chosen != Some(p) && (p in waits <==> MustWait(limits, proposals, db.tasks, p, busy)) by {
          StillToCome(rows, planners, left, waits, chosen, p);
        }
        ghost var before, was := planners, chosen;
        if busy || PendingOf(proposals, p) >= limits.pending || QueuedOf(db.tasks, p) > limits.queued {
          if planners[p].state != OnHold { SetPlanner(p, OnHold); }
        } else if chosen.None? {
          if planners[p].state == OnHold { SetPlanner(p, Awake); }
          chosen := Some(p);
        }
        PickedNext(rows, before, planners, left, waits, was, chosen, p);
        left := left - {p};
      }
      AllPicked(limits, proposals, db.tasks, busy, rows, planners, waits, chosen);
    }

    method FirstReviewable() returns (first: Option<nat>)
      ensures first.Some? ==> first.value < |proposals| && Reviewable(proposals[first.value])
                              && forall i :: 0 <= i < first.value ==> !Reviewable(proposals[i])
      ensures first.None? ==> forall i :: 0 <= i < |proposals| ==> !Reviewable(proposals[i])
    {
      for i := 0 to |proposals|
        invariant forall k :: 0 <= k < i ==> !Reviewable(proposals[k])
      {
        if Reviewable(proposals[i]) { return Some(i); }
      }
      first := None;
    }

    method RunPlanCritic(i: nat, o: ReviewOutcome) returns (r: Result)
      requires i < |proposals| && Reviewable(proposals[i])
      modifies this`proposals
      ensures proposals == old(proposals)[i := old(proposals)[i].(review := ReviewAfter(o))]
      ensures r == if o.ReviewDeferred? then Deferred else Stepped
    {
      proposals := proposals[i := proposals[i].(review := Reviewing)];
      proposals := proposals[i := proposals[i].(review := if o.ReviewDeferred? then Retryable else Reviewed)];
      r := if o.ReviewDeferred? then Deferred else Stepped;
    }

    method RunPlanner(project: string, o: PlanOutcome) returns (r: Result)
      requires project in planners && planners[project].state == Awake
      modifies this`planners, this`proposals, this`failures
      ensures PlanLeaves(old(planners), old(proposals), project, o, planners, proposals)
      ensures planners == old(planners)[project := PlannerAfter(old(planners)[project], o)]
      ensures proposals == ProposalsAfter(old(proposals), project, o)
      ensures r == if o.PlanDeferred? then Deferred else Stepped
      ensures failures == Counted(PlanMark(o), old(failures))
    {
      if o.PlanDeferred? { return Deferred; }
      var planner := planners[project];
      if o == Proposed(true) {
        proposals := proposals + [Proposal(project, true, Unreviewed)];
        if planner.revisions > 0 { planner := planner.(revisions := planner.revisions - 1); }
        planner := planner.(state := if planner.revisions > 0 then Awake else Satisfied);
      } else {
        planner := planner.(state := Halted);
      }
      planners := planners[project := planner];
      failures := if o == Proposed(true) || o == Questioned(true) then 0 else failures + 1;
      r := Stepped;
    }

    // --- the loop -------------------------------------------------------------------------

    /** The work left for workers, critics, planners and reviews of plans. */
    ghost function AllWork(): nat
      reads this
    {
      Termination.Work(db) + PlanningWork(planners, proposals)
    }

    /** Nothing can be done without the owner. */
    ghost predicate Quiet()
      reads this
    {
      && (forall a: AgentId :: !Candidate(db, a)) && (forall t :: !Ready(db.tasks, t))
      && (forall i :: 0 <= i < |proposals| ==> !Reviewable(proposals[i]))
      && (forall p :: p in planners && Going(planners[p]) ==> MustWait(limits, proposals, db.tasks, p, false))
    }

    ghost function Now(): Desk
      reads this
    {
      Desk(db, planners, proposals, failures)
    }

    method Pick() returns (choice: Choice, ghost steps: seq<Lifecycle.Step>, ghost waiting: Option<string>)
      modifies this`db, this`planners, this`clock
      ensures Traced(cfg, old(db), steps, db) && Termination.Work(db) <= Termination.Work(old(db))
      ensures Activated(cfg, old(db), steps, db)
      ensures HeldRows(limits, proposals, db.tasks, SomeoneRuns(db), old(planners), planners, waiting)
      ensures OnlyHolds(old(planners), planners)
      ensures choice.Work? <==> SomeoneRuns(db)
      ensures choice.Work? ==> Best(db, choice.a)
      ensures !choice.Work? ==> db == old(db) && steps == [] && forall t :: !Ready(db.tasks, t)
      ensures choice.Plan? ==> waiting == Some(choice.project) && choice.project in planners && planners[choice.project].state == Awake
      ensures choice.Nobody? ==> waiting.None? && forall p :: p in planners && Going(planners[p]) ==> MustWait(limits, proposals, db.tasks, p, false)
    {
      hide Termination.Work;
      hide Before;
      hide OnlyHolds;
      hide Traced;
      hide Ready;
      hide Older;
      hide MustWait;
      hide Settled;
      hide SomeoneRuns;
      SomeoneIsCandidate(db);
      steps := [];
      NothingTraced(cfg, db);
      var work := BestCandidate();
      if work.None? {
        var spawned := SpawnForQueuedTask();
        if spawned.Some? {
          steps := [Lifecycle.Spawn(spawned.value)];
          SpawnTraced(cfg, old(db), spawned.value);
        }
        SomeoneIsCandidate(db);
        work := BestCandidate();
      }
      var planner := PickPlanner(work.Some?);
      waiting := planner;
      HeldOnlyHolds(limits, proposals, db.tasks, work.Some?, old(planners), planners, planner);
      choice := if work.Some? then Work(work.value) else if planner.Some? then Plan(planner.value) else Nobody;
    }

    /** The selected agent is looked at again before it gets its turn. */
    method GiveTurn(a: AgentId, input: Input, ghost start: Lifecycle.Db, ghost spawned: seq<Lifecycle.Step>)
      returns (r: Result, ghost steps: seq<Lifecycle.Step>, ghost mark: Mark)
      requires Traced(cfg, start, spawned, db)
      modifies this`db, this`failures
      ensures WorkPass(cfg, old(db), input, spawned, a, steps, mark, r, db) && failures == Counted(mark, old(failures))
      ensures Traced(cfg, start, steps, db)
      ensures r.Stepped? ==> Termination.Work(db) < Termination.Work(old(db))
      ensures r.Idle? ==> !Lifecycle.Eligible(db, a) && db == old(db)
    {
      hide Termination.Work;
      MayTurnIsEligible(db, a);
      hide MayTurn;
      hide Lifecycle.RunsClosed;
      hide Lifecycle.TurnWrites;
      hide MarkOf;
      hide Traced;
      steps, mark := spawned, Unmarked;
      if !Lifecycle.Eligible(db, a) { return Idle, steps, mark; }
      r := TaskTurn(a, input.session, input.preflight);
      if input.preflight.Fine? {
        if Spends(old(db), a, input.session) { TurnDecreases(cfg, old(db), a, input.session); }
        mark := if Lifecycle.BudgetSpent(old(db), a) then Unmarked else MarkOf(old(db), a, input.session);
        steps := TurnTraced(cfg, start, spawned, old(db), a, input.session);
      }
    }

    method StepLocked(input: Input) returns (r: Result, ghost steps: seq<Lifecycle.Step>, ghost mark: Mark)
      modifies this
      ensures Pass(cfg, limits, old(Now()), input, steps, mark, r, Now())
      ensures Traced(cfg, old(db), steps, db) && stop == old(stop)
      ensures r.Stepped? ==> AllWork() < old(AllWork())
      ensures r.Idle? ==> Quiet() || exists a: AgentId :: Best(db, a) && !Lifecycle.Eligible(db, a)
    {
      hide Termination.Work;
      hide PlanningWork;
      hide OnlyHolds;
      hide Before;
      hide Lifecycle.Eligible;
      hide Lifecycle.TurnWrites;
      hide MarkOf;
      hide Traced;
      hide HeldRows;
      hide Activated;
      hide WorkPass;
      hide PlanLeaves;
      hide Pass;
      var choice;
      ghost var waiting;
      choice, steps, waiting := Pick();
      ghost var before, picked, held, spawned := old(Now()), db, planners, steps;
      mark := Unmarked;
      HoldsKeepWork(old(planners), planners, proposals);
      if !choice.Work? {
        var i := FirstReviewable();
        if i.Some? {
          if !input.preflight.Fine? {
            r := if input.preflight.Postponed? then Deferred else PreflightFailed;
          } else {
            if !input.review.ReviewDeferred? { ReviewDecreases(planners, proposals, i.value, input.review); }
            r := RunPlanCritic(i.value, input.review);
          }
          assert ReviewPass(before.proposals, input, i.value, r, proposals);
          PassedReview(cfg, limits, before, input, spawned, picked, held, waiting, i.value, r, Now());
          return;
        }
      }
      match choice
      case Nobody =>
        r := Idle;
        PassedIdle(cfg, limits, before, input, spawned, picked, held, Now());
      case Plan(p) =>
        if !input.preflight.Fine? {
          r := if input.preflight.Postponed? then Deferred else PreflightFailed;
        } else {
          if !input.plan.PlanDeferred? { PlanDecreases(planners, proposals, p, input.plan); }
          r := RunPlanner(p, input.plan);
          mark := PlanMark(input.plan);
        }
        PassedPlan(cfg, limits, before, input, spawned, picked, held, p, mark, r, Now());
      case Work(a) =>
        r, steps, mark := GiveTurn(a, input, before.db, spawned);
        PassedWork(cfg, limits, before, input, spawned, picked, held, waiting, a, steps, mark, r, Now());
    }

    /** One timer invocation; maxTurns 0 means no limit. With every session returning it always ends. Each of its
        passes does what `Pass` says with its own input; all but the last one end with a step, and none of them
        leaves so many failures that the breaker had to trip. */
    method Run(ready: bool, maxTurns: nat, inputs: nat -> Input) returns (ok: bool, why: Why, turns: nat, ghost log: Log)
      modifies this
      ensures Worked(cfg, limits, inputs, old(Now()), log, turns, LastResult(why)) && Now() == Latest(log.desks)
      ensures |log.trace| == turns + if why.WasDeferred? || why.WasBroken? || why.WasIdle? then 1 else 0
      ensures BelowLimit(limits, log, if why.Tripped? then turns else turns + 1)
      ensures turns > 0 && !why.Tripped? ==> failures < limits.failures
      ensures why.Tripped? ==> turns > 0 && failures >= limits.failures
      ensures |log.trace| > 0 ==> !old(stop)
      ensures ok <==> !why.NotReady? && !why.WasBroken?
      ensures Because(why, inputs(turns), ready, old(stop), stop, turns, maxTurns)
      ensures maxTurns > 0 ==> turns <= maxTurns
      ensures why.WasIdle? ==> Quiet() || exists a: AgentId :: Best(db, a) && !Lifecycle.Eligible(db, a)
    {
      hide Termination.Work;
      hide PlanningWork;
      hide Lifecycle.Eligible;
      hide Best;
      hide Traced;
      hide Pass;
      hide Worked;
      hide BelowLimit;
      hide Counted;
      hide Streak;
      hide Quiet;
      hide AllWork;
      turns, log := 0, Log([Now()], [], []);
      ghost var start := Now();
      NothingWorked(cfg, limits, inputs, Now());
      if !ready { return false, NotReady, 0, log; }
      while maxTurns == 0 || turns < maxTurns
        invariant Worked(cfg, limits, inputs, start, log, turns, Stepped) && |log.trace| == turns
        invariant |log.desks| == turns + 1 && log.desks[turns] == Now() && BelowLimit(limits, log, |log.desks|)
        invariant (maxTurns > 0 ==> turns <= maxTurns) && (turns > 0 ==> failures < limits.failures)
        invariant stop == old(stop) && (turns > 0 ==> !stop)
        decreases AllWork()
      {
        var input := inputs(turns);
        if input.retryLater { return true, RetryLater, turns, log; }
        stop := stop || input.stopped;
        if stop { return true, Stopped, turns, log; }
        ghost var before, was := Now(), log;
        var r;
        ghost var steps, mark;
        r, steps, mark := StepLocked(input);
        log := Longer(log, Now(), steps, mark);
        WorkedOn(cfg, limits, inputs, start, was, turns, Now(), steps, mark, r);
        StillBelow(limits, was, turns, Now(), steps, mark);
        PassCounts(cfg, limits, before, input, steps, mark, r, Now());
        match r
        case Deferred => return true, WasDeferred, turns, log;
        case PreflightFailed => return false, WasBroken, turns, log;
        case Idle => return true, WasIdle, turns, log;
        case Stepped =>
          turns := turns + 1;
          if failures >= limits.failures {
            stop := true;
            return true, Tripped, turns, log;
          }
      }
      ok, why := true, TurnsUsed;
    }
  }

  /** The passes of a run: the desks before and after them, the steps each took, and what each meant to the breaker. */
  datatype Log = Log(desks: seq<Desk>, trace: seq<seq<Lifecycle.Step>>, marks: seq<Mark>)

  function Latest<T>(s: seq<T>): T
    requires s != []
  {
    s[|s| - 1]
  }

  /** Why the loop ends, by what the last pass was given. */
  predicate Because(why: Why, input: Input, ready: bool, before: bool, stop: bool, turns: nat, maxTurns: nat) {
    && (ready <==> !why.NotReady?) && (stop <==> before || why.Stopped? || why.Tripped?)
    && match why
       case NotReady => turns == 0
       case RetryLater => input.retryLater
       case Stopped => !input.retryLater && (before || input.stopped)
       case TurnsUsed => turns == maxTurns > 0
       case _ => !input.retryLater || why.Tripped?
  }

  function LastResult(why: Why): Result {
    match why
    case WasDeferred => Deferred
    case WasBroken => PreflightFailed
    case WasIdle => Idle
    case _ => Stepped
  }

  /** A run from `start`: every pass does what it has to do with its own input, which neither defers nor stops the
      loop. The first `turns` passes made a step; one more, if there is one, ended with the last result. The steps
      lead from the first database to the last, and the failures at the end are those the marks count up to. */
  ghost predicate Worked(cfg: Lifecycle.Config, limits: Limits, inputs: nat -> Input, start: Desk, log: Log, turns: nat, last: Result) {
    && |log.desks| == |log.trace| + 1 && |log.marks| == |log.trace| && turns <= |log.trace| <= turns + 1
    && log.desks[0] == start
    && (forall k: nat :: k < |log.trace| ==>
          !inputs(k).retryLater && !inputs(k).stopped
          && Pass(cfg, limits, log.desks[k], inputs(k), log.trace[k], log.marks[k], if k < turns then Stepped else last, log.desks[k + 1]))
    && Traced(cfg, start.db, Joined(log.trace), Latest(log.desks).db)
    && Latest(log.desks).failures == Streak(start.failures, log.marks)
  }

  /** None of the desks after the first and before the n-th has reached the limit of failures. */
  ghost predicate BelowLimit(limits: Limits, log: Log, n: nat) {
    forall k :: 0 < k < n && k < |log.desks| ==> log.desks[k].failures < limits.failures
  }

  function Longer(log: Log, desk: Desk, steps: seq<Lifecycle.Step>, mark: Mark): Log {
    Log(log.desks + [desk], log.trace + [steps], log.marks + [mark])
  }

  lemma NothingWorked(cfg: Lifecycle.Config, limits: Limits, inputs: nat -> Input, start: Desk)
    ensures Worked(cfg, limits, inputs, start, Log([start], [], []), 0, Stepped)
    ensures forall last :: Worked(cfg, limits, inputs, start, Log([start], [], []), 0, last)
    ensures forall n :: BelowLimit(limits, Log([start], [], []), n)
  {
    hide Traced;
    NothingTraced(cfg, start.db);
  }

  lemma WorkedOn(cfg: Lifecycle.Config, limits: Limits, inputs: nat -> Input, start: Desk, log: Log, turns: nat,
                 desk: Desk, steps: seq<Lifecycle.Step>, mark: Mark, r: Result)
    requires Worked(cfg, limits, inputs, start, log, turns, Stepped) && |log.trace| == turns
    requires !inputs(turns).retryLater && !inputs(turns).stopped
    requires Pass(cfg, limits, log.desks[turns], inputs(turns), steps, mark, r, desk)
    requires Traced(cfg, log.desks[turns].db, steps, desk.db)
    ensures Worked(cfg, limits, inputs, start, Longer(log, desk, steps, mark), turns, r)
    ensures r.Stepped? ==> Worked(cfg, limits, inputs, start, Longer(log, desk, steps, mark), turns + 1, Stepped)
  {
    hide Traced;
    hide Pass;
    hide Counted;
    hide Joined;
    hide Streak;
    PassCounts(cfg, limits, log.desks[turns], inputs(turns), steps, mark, r, desk);
    TracedAppend(cfg, start.db, Joined(log.trace), log.desks[turns].db, steps, desk.db);
    JoinedAppend(log.trace, steps);
    StreakAppend(start.failures, log.marks, mark);
    var more := Longer(log, desk, steps, mark);
    forall k: nat | k < turns
      ensures Pass(cfg, limits, more.desks[k], inputs(k), more.trace[k], more.marks[k], Stepped, more.desks[k + 1])
    {
      assert more.desks[k] == log.desks[k] && more.desks[k + 1] == log.desks[k + 1];
      assert more.trace[k] == log.trace[k] && more.marks[k] == log.marks[k];
    }
  }

  lemma StillBelow(limits: Limits, log: Log, turns: nat, desk: Desk, steps: seq<Lifecycle.Step>, mark: Mark)
    requires BelowLimit(limits, log, |log.desks|) && |log.desks| == turns + 1
    ensures BelowLimit(limits, Longer(log, desk, steps, mark), turns + 1)
    ensures desk.failures < limits.failures ==> BelowLimit(limits, Longer(log, desk, steps, mark), turns + 2)
    ensures turns > 0 ==> log.desks[turns].failures < limits.failures
  {
  }

  function Joined(trace: seq<seq<Lifecycle.Step>>): seq<Lifecycle.Step> {
    if trace == [] then [] else Joined(trace[..|trace| - 1]) + trace[|trace| - 1]
  }

  lemma JoinedAppend(trace: seq<seq<Lifecycle.Step>>, steps: seq<Lifecycle.Step>)
    ensures Joined(trace + [steps]) == Joined(trace) + steps
  {
    assert (trace + [steps])[..|trace|] == trace;
  }

  lemma StreakAppend(failures: nat, marks: seq<Mark>, m: Mark)
    ensures Streak(failures, marks + [m]) == Counted(m, Streak(failures, marks))
  {
    assert (marks + [m])[..|marks|] == marks;
  }

  lemma PassCounts(cfg: Lifecycle.Config, limits: Limits, s: Desk, input: Input, steps: seq<Lifecycle.Step>, mark: Mark,
                   r: Result, s': Desk)
    requires Pass(cfg, limits, s, input, steps, mark, r, s')
    ensures s'.failures == Counted(mark, s.failures) && (!r.Stepped? ==> mark == Unmarked && s'.failures == s.failures)
  {
    hide Activated;
    hide HeldRows;
    hide ReviewPass;
    hide PlanLeaves;
    hide Best;
    hide Raised;
  }

  // --- what one pass does ---------------------------------------------------------------------

  /** Everything the loop works on. */
  datatype Desk = Desk(db: Lifecycle.Db, planners: map<string, Planner>, proposals: seq<Proposal>, failures: nat)

  ghost predicate SomeoneRuns(db: Lifecycle.Db) {
    exists a: AgentId :: a in db.agents && db.agents[a].state == Lifecycle.Runnable
                         && a.task in db.tasks && db.tasks[a.task].status != Cancelled
  }

  lemma SomeoneIsCandidate(db: Lifecycle.Db)
    ensures SomeoneRuns(db) <==> exists a: AgentId :: Candidate(db, a)
  {
    if a: AgentId :| a in db.agents && db.agents[a].state == Lifecycle.Runnable
                     && a.task in db.tasks && db.tasks[a.task].status != Cancelled {
      assert Candidate(db, a);
    }
  }

  /** When no agent can run, the first ready task, if there is one, is activated. */
  ghost predicate Activated(cfg: Lifecycle.Config, db: Lifecycle.Db, spawned: seq<Lifecycle.Step>, picked: Lifecycle.Db) {
    if SomeoneRuns(db) || forall t :: !Ready(db.tasks, t) then spawned == [] && picked == db
    else exists t :: FirstReady(db.tasks, t) && spawned == [Lifecycle.Spawn(t)] && picked == Lifecycle.Next(cfg, db, Lifecycle.Spawn(t))
  }

  predicate Refused(input: Input, r: Result) {
    match input.preflight
    case Fine => false
    case Postponed => r == Deferred
    case Broken => r == PreflightFailed
  }

  /** It is still runnable, its task is under way, in review or blocked, and no run is open. */
  predicate MayTurn(db: Lifecycle.Db, a: AgentId) {
    && a in db.agents && db.agents[a].state == Lifecycle.Runnable
    && a.task in db.tasks && db.tasks[a.task].status in {InProgress, InReview, Blocked}
    && forall i :: 0 <= i < |db.runs| ==> !db.runs[i].open
  }

  lemma MayTurnIsEligible(db: Lifecycle.Db, a: AgentId)
    ensures MayTurn(db, a) <==> Lifecycle.Eligible(db, a)
  {
  }

  /** The best candidate gets the pass's session as its turn, unless it turns out not to be eligible or the
      preflight refuses. */
  ghost predicate WorkPass(cfg: Lifecycle.Config, picked: Lifecycle.Db, input: Input, spawned: seq<Lifecycle.Step>, a: AgentId,
                           steps: seq<Lifecycle.Step>, mark: Mark, r: Result, db': Lifecycle.Db) {
    if !MayTurn(picked, a) || !input.preflight.Fine? then
      steps == spawned && db' == picked && mark == Unmarked
      && if MayTurn(picked, a) then Refused(input, r) else r == Idle
    else
      var ws := Lifecycle.TurnWrites(cfg, picked, a, input.session);
      && steps == spawned + [Lifecycle.Turn(a, input.session, |ws|)] && db' == Lifecycle.ApplyAll(picked, ws)
      && mark == (if Lifecycle.BudgetSpent(picked, a) then Unmarked else MarkOf(picked, a, input.session))
      && r == (if input.session.outcome.Deferred? && !Lifecycle.BudgetSpent(picked, a) then Deferred else Stepped)
  }

  predicate FirstToReview(proposals: seq<Proposal>, i: nat) {
    && i < |proposals| && proposals[i].pending && proposals[i].review in {Unreviewed, Retryable}
    && forall k :: 0 <= k < i ==> !(proposals[k].pending && proposals[k].review in {Unreviewed, Retryable})
  }

  /** The pass's review settles the proposal's advice, or may be tried again when it is put off. */
  predicate ReviewPass(proposals: seq<Proposal>, input: Input, i: nat, r: Result, proposals': seq<Proposal>)
    requires i < |proposals|
  {
    if !input.preflight.Fine? then proposals' == proposals && Refused(input, r)
    else
      && proposals' == proposals[i := proposals[i].(review := if input.review.ReviewDeferred? then Retryable else Reviewed)]
      && r == if input.review.ReviewDeferred? then Deferred else Stepped
  }

  /** What a planning session leaves: a proposal to review and one revision less to make, or a halted planner; a
      session that is put off leaves everything as it was. */
  predicate PlanLeaves(planners: map<string, Planner>, proposals: seq<Proposal>, project: string, o: PlanOutcome,
                       planners': map<string, Planner>, proposals': seq<Proposal>)
    requires project in planners
  {
    && planners'.Keys == planners.Keys && (forall p :: p in planners && p != project ==> planners'[p] == planners[p])
    && var row, row' := planners[project], planners'[project];
       if o.PlanDeferred? then row' == row && proposals' == proposals
       else
         && row'.updated == row.updated
         && if o == Proposed(true) then
              && proposals' == proposals + [Proposal(project, true, Unreviewed)]
              && row'.revisions == (if row.revisions > 0 then row.revisions - 1 else 0)
              && row'.state == if row'.revisions > 0 then Awake else Satisfied
            else proposals' == proposals && row'.revisions == row.revisions && row'.state == Halted
  }

  /** A planning session that leaves neither a proposal nor a question to the owner has failed. */
  function PlanMark(o: PlanOutcome): Mark {
    if o.PlanDeferred? then Unmarked else if o == Proposed(true) || o == Questioned(true) then Well else Badly
  }

  ghost predicate PlanPass(s: Desk, held: map<string, Planner>, input: Input, p: string, mark: Mark, r: Result, s': Desk)
    requires p in held
  {
    if !input.preflight.Fine? then s'.planners == held && s'.proposals == s.proposals && mark == Unmarked && Refused(input, r)
    else
      && PlanLeaves(held, s.proposals, p, input.plan, s'.planners, s'.proposals)
      && mark == PlanMark(input.plan)
      && r == if input.plan.PlanDeferred? then Deferred else Stepped
  }

  /** The pass with all that is chosen in it: whom to activate, which planners to hold, whose turn it is. */
  ghost predicate PassVia(cfg: Lifecycle.Config, limits: Limits, s: Desk, input: Input, spawned: seq<Lifecycle.Step>,
                          picked: Lifecycle.Db, held: map<string, Planner>, waiting: Option<string>,
                          steps: seq<Lifecycle.Step>, mark: Mark, r: Result, s': Desk) {
    && Activated(cfg, s.db, spawned, picked)
    && HeldRows(limits, s.proposals, picked.tasks, SomeoneRuns(picked), s.planners, held, waiting)
    && s'.failures == Counted(mark, s.failures)
    && if SomeoneRuns(picked) then
         && s'.planners == held && s'.proposals == s.proposals
         && exists a: AgentId :: Best(picked, a) && WorkPass(cfg, picked, input, spawned, a, steps, mark, r, s'.db)
       else
         && steps == [] && s'.db == s.db
         && if exists i :: FirstToReview(s.proposals, i) then
              && s'.planners == held && mark == Unmarked
              && exists i: nat :: FirstToReview(s.proposals, i) && ReviewPass(s.proposals, input, i, r, s'.proposals)
            else if waiting.Some? then
              waiting.value in held && PlanPass(s, held, input, waiting.value, mark, r, s')
            else s'.planners == held && s'.proposals == s.proposals && mark == Unmarked && r == Idle
  }

  /** What a pass of the loop does, from the best candidate and the first proposal to what each session leaves. */
  ghost predicate Pass(cfg: Lifecycle.Config, limits: Limits, s: Desk, input: Input, steps: seq<Lifecycle.Step>, mark: Mark,
                       r: Result, s': Desk) {
    exists spawned, picked, held, waiting :: PassVia(cfg, limits, s, input, spawned, picked, held, waiting, steps, mark, r, s')
  }

  lemma PassedWork(cfg: Lifecycle.Config, limits: Limits, s: Desk, input: Input, spawned: seq<Lifecycle.Step>,
                   picked: Lifecycle.Db, held: map<string, Planner>, waiting: Option<string>, a: AgentId,
                   steps: seq<Lifecycle.Step>, mark: Mark, r: Result, s': Desk)
    requires Activated(cfg, s.db, spawned, picked) && Best(picked, a)
    requires HeldRows(limits, s.proposals, picked.tasks, true, s.planners, held, waiting)
    requires s'.planners == held && s'.proposals == s.proposals && s'.failures == Counted(mark, s.failures)
    requires WorkPass(cfg, picked, input, spawned, a, steps, mark, r, s'.db)
    ensures Pass(cfg, limits, s, input, steps, mark, r, s')
  {
    hide Activated;
    hide HeldRows;
    hide WorkPass;
    hide Before;
    assert SomeoneRuns(picked);
    assert PassVia(cfg, limits, s, input, spawned, picked, held, waiting, steps, mark, r, s');
  }

  lemma PassedReview(cfg: Lifecycle.Config, limits: Limits, s: Desk, input: Input, spawned: seq<Lifecycle.Step>,
                     picked: Lifecycle.Db, held: map<string, Planner>, waiting: Option<string>, i: nat, r: Result, s': Desk)
    requires Activated(cfg, s.db, spawned, picked) && !SomeoneRuns(picked) && spawned == [] && picked == s.db
    requires HeldRows(limits, s.proposals, picked.tasks, false, s.planners, held, waiting)
    requires FirstToReview(s.proposals, i) && ReviewPass(s.proposals, input, i, r, s'.proposals)
    requires s' == s.(planners := held, proposals := s'.proposals)
    ensures Pass(cfg, limits, s, input, [], Unmarked, r, s')
  {
    hide Activated;
    hide HeldRows;
    hide FirstToReview;
    hide ReviewPass;
    assert PassVia(cfg, limits, s, input, spawned, picked, held, waiting, [], Unmarked, r, s');
  }

  lemma PassedPlan(cfg: Lifecycle.Config, limits: Limits, s: Desk, input: Input, spawned: seq<Lifecycle.Step>,
                   picked: Lifecycle.Db, held: map<string, Planner>, p: string, mark: Mark, r: Result, s': Desk)
    requires Activated(cfg, s.db, spawned, picked) && !SomeoneRuns(picked) && spawned == [] && picked == s.db
    requires HeldRows(limits, s.proposals, picked.tasks, false, s.planners, held, Some(p))
    requires forall i :: !FirstToReview(s.proposals, i)
    requires p in held && PlanPass(s, held, input, p, mark, r, s')
    requires s'.db == s.db && s'.failures == Counted(mark, s.failures)
    ensures Pass(cfg, limits, s, input, [], mark, r, s')
  {
    hide Activated;
    hide HeldRows;
    hide FirstToReview;
    hide PlanPass;
    assert PassVia(cfg, limits, s, input, spawned, picked, held, Some(p), [], mark, r, s');
  }

  lemma PassedIdle(cfg: Lifecycle.Config, limits: Limits, s: Desk, input: Input, spawned: seq<Lifecycle.Step>,
                   picked: Lifecycle.Db, held: map<string, Planner>, s': Desk)
    requires Activated(cfg, s.db, spawned, picked) && !SomeoneRuns(picked) && spawned == [] && picked == s.db
    requires HeldRows(limits, s.proposals, picked.tasks, false, s.planners, held, None)
    requires forall i :: !FirstToReview(s.proposals, i)
    requires s' == s.(planners := held)
    ensures Pass(cfg, limits, s, input, [], Unmarked, Idle, s')
  {
    hide Activated;
    hide HeldRows;
    hide FirstToReview;
    assert PassVia(cfg, limits, s, input, spawned, picked, held, None, [], Unmarked, Idle, s');
  }

  lemma ActiveHasCandidate(db: Lifecycle.Db, t: string)
    requires t in db.tasks && RunnerOk(db, t) && Lifecycle.Active(db.tasks[t].status)
    ensures exists a: AgentId :: Candidate(db, a)
  {
    var a: AgentId :| SoleRunner(db, t, a);
    assert Candidate(db, a);
  }

  /** When the history is orderly, a scheduler that is idle has really nothing to do: nothing is being
      worked on or reviewed, no queued task is ready, and on an acyclic table every queued task waits,
      directly or not, for one that is neither queued nor accepted. */
  lemma IdleIsQuiet(cfg: Lifecycle.Config, s: Scheduler)
    requires Inv(cfg, s.db) && Acyclic(DependsOn(s.db.tasks))
    requires s.Quiet() || exists a: AgentId :: Best(s.db, a) && !Lifecycle.Eligible(s.db, a)
    ensures s.Quiet()
    ensures forall t :: t in s.db.tasks ==> !Lifecycle.Active(s.db.tasks[t].status) && !Ready(s.db.tasks, t)
    ensures forall t :: t in s.db.tasks && s.db.tasks[t].status == Queued ==> !Hopeful(s.db.tasks, t)
  {
    hide Numbered;
    hide QuestionsOk;
    hide Hopeful;
    hide Acyclic;
    forall a: AgentId | Candidate(s.db, a) ensures Lifecycle.Eligible(s.db, a) {
      assert RunnerOk(s.db, a.task);
    }
    assert forall a: AgentId :: !Candidate(s.db, a);
    forall t | t in s.db.tasks ensures !Lifecycle.Active(s.db.tasks[t].status) {
      assert RunnerOk(s.db, t);
      if Lifecycle.Active(s.db.tasks[t].status) { ActiveHasCandidate(s.db, t); }
    }
    forall t | t in s.db.tasks && s.db.tasks[t].status == Queued ensures !Hopeful(s.db.tasks, t) {
      if Hopeful(s.db.tasks, t) { QueueIsLive(s.db.tasks, t); }
    }
  }

  /** The steps lead from one state to the other, none of them cut off. */
  ghost predicate Traced(cfg: Lifecycle.Config, db: Lifecycle.Db, steps: seq<Lifecycle.Step>, db': Lifecycle.Db) {
    Lifecycle.CanRun(cfg, db, steps) && Orderly(cfg, db, steps) && Lifecycle.After(cfg, db, steps) == db'
  }

  lemma NothingTraced(cfg: Lifecycle.Config, db: Lifecycle.Db)
    ensures Traced(cfg, db, [], db)
  {
  }

  lemma SpawnTraced(cfg: Lifecycle.Config, db: Lifecycle.Db, t: string)
    requires Ready(db.tasks, t)
    ensures Traced(cfg, db, [Lifecycle.Spawn(t)], Lifecycle.Next(cfg, db, Lifecycle.Spawn(t)))
    ensures Termination.Work(Lifecycle.Next(cfg, db, Lifecycle.Spawn(t))) < Termination.Work(db)
    ensures Candidate(Lifecycle.Next(cfg, db, Lifecycle.Spawn(t)), Lifecycle.Worker(t))
  {
    SpawnDecreases(db, t);
    hide Termination.Work;
    hide Traced;
    OneStepTraced(cfg, db, Lifecycle.Spawn(t));
  }

  lemma {:induction false} TracedAppend(cfg: Lifecycle.Config, db: Lifecycle.Db, steps: seq<Lifecycle.Step>, mid: Lifecycle.Db,
                                        more: seq<Lifecycle.Step>, db': Lifecycle.Db)
    requires Traced(cfg, db, steps, mid) && Traced(cfg, mid, more, db')
    ensures Traced(cfg, db, steps + more, db')
    decreases |steps|
  {
    hide Lifecycle.Enabled;
    hide Lifecycle.Next;
    hide Lifecycle.Uninterrupted;
    if steps == [] {
      assert steps + more == more;
    } else {
      assert (steps + more)[1..] == steps[1..] + more;
      TracedAppend(cfg, Lifecycle.Next(cfg, db, steps[0]), steps[1..], mid, more, db');
    }
  }

  lemma TurnTraced(cfg: Lifecycle.Config, db: Lifecycle.Db, steps: seq<Lifecycle.Step>, mid: Lifecycle.Db,
                   a: AgentId, s: Lifecycle.Session) returns (more: seq<Lifecycle.Step>)
    requires Traced(cfg, db, steps, mid) && Lifecycle.Eligible(mid, a)
    ensures Traced(cfg, db, more, Lifecycle.ApplyAll(mid, Lifecycle.TurnWrites(cfg, mid, a, s)))
    ensures more == steps + [Lifecycle.Turn(a, s, |Lifecycle.TurnWrites(cfg, mid, a, s)|)]
  {
    var step := Lifecycle.Turn(a, s, |Lifecycle.TurnWrites(cfg, mid, a, s)|);
    hide Traced;
    OneStepTraced(cfg, mid, step);
    hide Lifecycle.TurnWrites;
    TracedAppend(cfg, db, steps, mid, [step], Lifecycle.Next(cfg, mid, step));
    more := steps + [step];
  }

  lemma OneStepTraced(cfg: Lifecycle.Config, db: Lifecycle.Db, step: Lifecycle.Step)
    requires Lifecycle.Enabled(db, step) && Lifecycle.Uninterrupted(cfg, db, step) && (step.Retry? ==> RetrySafe(db))
    ensures Traced(cfg, db, [step], Lifecycle.Next(cfg, db, step))
  {
    hide Lifecycle.Enabled;
    hide Lifecycle.Next;
    hide Lifecycle.Uninterrupted;
    var run, db' := [step], Lifecycle.Next(cfg, db, step);
    NothingTraced(cfg, db');
    assert run[1..] == [];
    assert Lifecycle.CanRun(cfg, db', run[1..]) && Orderly(cfg, db', run[1..]) && Lifecycle.After(cfg, db', run[1..]) == db';
  }

  /** Why a planner may not run now: other work, too many pending proposals, or too many queued tasks. */
  predicate MustWait(limits: Limits, proposals: seq<Proposal>, tasks: map<string, Task>, project: string, busy: bool) {
    busy || PendingOf(proposals, project) >= limits.pending || QueuedOf(tasks, project) > limits.queued
  }

  /** The planner of p has been untouched for longer than that of q, or as long and its id comes first; the ids
      are the projects with a common prefix. */
  predicate Older(rows: map<string, Planner>, p: string, q: string)
    requires p in rows && q in rows
  {
    rows[p].updated < rows[q].updated || (rows[p].updated == rows[q].updated && LexLess(p, q))
  }

  lemma OlderTransitive(rows: map<string, Planner>, p: string, q: string, r: string)
    requires p in rows && q in rows && r in rows && Older(rows, p, q) && Older(rows, q, r)
    ensures Older(rows, p, r)
  {
    hide LexLess;
    if LexLess(p, q) && LexLess(q, r) { LexTransitive(p, q, r); }
  }

  lemma OlderTotal(rows: map<string, Planner>, p: string, q: string)
    requires p in rows && q in rows
    ensures Older(rows, p, q) || Older(rows, q, p) || p == q
  {
    hide LexLess;
    LexTotal(p, q);
  }

  /** The planners not left have been dealt with in the order of their stamps. */
  ghost predicate SoFar(rows: map<string, Planner>, now: map<string, Planner>, left: set<string>, waits: set<string>, chosen: Option<string>) {
    && now.Keys == rows.Keys && left <= rows.Keys && waits <= rows.Keys
    && (forall p :: p in left ==> Going(rows[p]) && now[p] == rows[p])
    && (forall p :: p in waits ==> Going(rows[p]))
    && (forall p, q :: p in rows && Going(rows[p]) && p !in left && q in left ==> Older(rows, p, q))
    && (chosen.Some? ==> chosen.value in rows && chosen.value !in left && chosen.value !in waits && Going(rows[chosen.value])
                         && forall p :: p in rows && Going(rows[p]) && p !in waits && p != chosen.value ==> Older(rows, chosen.value, p))
    && (chosen.None? ==> forall p :: p in rows && Going(rows[p]) && p !in left ==> p in waits)
    && (forall p :: p in rows && p !in left ==> Settled(rows[p], now[p], p in waits, chosen == Some(p)))
  }

  /** What becomes of a planner's row: one that has to wait is put on hold, the one that is chosen is awake, and
      every other row, like one that is so already, stays as it is. */
  predicate Settled(row: Planner, row': Planner, waits: bool, chosen: bool) {
    && row'.revisions == row.revisions
    && row'.state == (if !Going(row) then row.state else if waits then OnHold else if chosen then Awake else row.state)
    && (row'.state == row.state ==> row' == row)
  }

  /** Planners after a pick: those that must wait are on hold, and of the others the longest untouched is chosen. */
  ghost predicate HeldRows(limits: Limits, proposals: seq<Proposal>, tasks: map<string, Task>, busy: bool,
                           rows: map<string, Planner>, now: map<string, Planner>, chosen: Option<string>) {
    && now.Keys == rows.Keys
    && (forall p :: p in rows ==>
          Settled(rows[p], now[p], Going(rows[p]) && MustWait(limits, proposals, tasks, p, busy), chosen == Some(p)))
    && (chosen.Some? ==> chosen.value in rows && Going(rows[chosen.value]) && !MustWait(limits, proposals, tasks, chosen.value, busy)
                         && forall p :: p in rows && Going(rows[p]) && p != chosen.value && !MustWait(limits, proposals, tasks, p, busy) ==>
                              rows[chosen.value].updated < rows[p].updated
                              || (rows[chosen.value].updated == rows[p].updated && LexLess(chosen.value, p)))
    && (chosen.None? ==> forall p :: p in rows && Going(rows[p]) ==> MustWait(limits, proposals, tasks, p, busy))
  }

  lemma HeldOnlyHolds(limits: Limits, proposals: seq<Proposal>, tasks: map<string, Task>, busy: bool,
                      rows: map<string, Planner>, now: map<string, Planner>, chosen: Option<string>)
    requires HeldRows(limits, proposals, tasks, busy, rows, now, chosen)
    ensures OnlyHolds(rows, now)
    ensures chosen.Some? ==> now[chosen.value].state == Awake && !busy
    ensures chosen.None? ==> forall p :: p in now && Going(now[p]) ==> MustWait(limits, proposals, tasks, p, busy)
  {
    hide PendingOf;
    hide QueuedOf;
  }

  lemma NothingPicked(rows: map<string, Planner>, left: set<string>, waits: set<string>)
    requires left == (set p | p in rows && Going(rows[p])) && waits <= left
    ensures SoFar(rows, rows, left, waits, None)
  {
  }

  lemma StillToCome(rows: map<string, Planner>, now: map<string, Planner>, left: set<string>, waits: set<string>, chosen: Option<string>, p: string)
    requires SoFar(rows, now, left, waits, chosen) && p in left
    ensures p in now && now[p] == rows[p] && Going(rows[p]) && chosen != Some(p)
  {
  }

  lemma PickedNext(rows: map<string, Planner>, now: map<string, Planner>, now': map<string, Planner>, left: set<string>,
                   waits: set<string>, chosen: Option<string>, chosen': Option<string>, p: string)
    requires SoFar(rows, now, left, waits, chosen) && p in left && forall q :: q in left && q != p ==> Older(rows, p, q)
    requires now'.Keys == now.Keys && forall q :: q in now && q != p ==> now'[q] == now[q]
    requires p in now' && Settled(now[p], now'[p], p in waits, chosen' == Some(p))
    requires chosen' == if p in waits || chosen.Some? then chosen else Some(p)
    ensures SoFar(rows, now', left - {p}, waits, chosen')
  {
    hide Older;
  }

  lemma AllPicked(limits: Limits, proposals: seq<Proposal>, tasks: map<string, Task>, busy: bool,
                  rows: map<string, Planner>, now: map<string, Planner>, waits: set<string>, chosen: Option<string>)
    requires SoFar(rows, now, {}, waits, chosen)
    requires forall p :: p in waits <==> p in rows && Going(rows[p]) && MustWait(limits, proposals, tasks, p, busy)
    ensures HeldRows(limits, proposals, tasks, busy, rows, now, chosen)
  {
    hide MustWait;
    hide LexLess;
  }

  function PendingOf(proposals: seq<Proposal>, project: string): nat {
    |set i | 0 <= i < |proposals| && proposals[i].pending && proposals[i].project == project|
  }

  function QueuedOf(tasks: map<string, Task>, project: string): nat {
    |set t | t in tasks && tasks[t].status == Queued && tasks[t].project == project|
  }

  /** The turn ends the loop because the provider asked to come back later. */
  predicate Defers(db: Lifecycle.Db, a: AgentId, s: Lifecycle.Session)
    requires Lifecycle.Eligible(db, a)
  {
    !Lifecycle.BudgetSpent(db, a) && s.outcome.Deferred?
  }

  /** What a pass means to the circuit breaker: a session that ended well, one that failed, one that ended
      well but could not be applied, or none. */
  datatype Mark = Well | Badly | Botched | Unmarked

  predicate Resets(m: Mark) { m.Well? || m.Botched? }

  function Counted(m: Mark, failures: nat): nat {
    match m
    case Well => 0
    case Badly => failures + 1
    case Botched => 1
    case Unmarked => failures
  }

  /** A session fails when it says so or leaves no outcome. What it leaves cannot be applied when a critic names no
      verdict, when its pass cannot be integrated, or when the repository or the checks of a worker raise. */
  function MarkOf(db: Lifecycle.Db, a: AgentId, s: Lifecycle.Session): Mark {
    if s.outcome.Deferred? then Unmarked
    else if s.outcome.Failed? || s.outcome.NoOutcome? then Badly
    else if s.outcome.Finished? && a.Worker? && Raised(db, a.task, s) then Botched
    else if s.outcome.Finished? && a.Critic?
            && (s.outcome.verdict.Missing? || (s.outcome.verdict.Pass? && s.integration.Failure?)) then Botched
    else Well
  }

  lemma DeferredUnmarked(db: Lifecycle.Db, a: AgentId, s: Lifecycle.Session)
    requires s.outcome.Deferred?
    ensures MarkOf(db, a, s) == Unmarked
  {
  }

  /** Consecutive failures after some passes. */
  function Streak(failures: nat, marks: seq<Mark>): nat {
    if marks == [] then failures else Counted(marks[|marks| - 1], Streak(failures, marks[..|marks| - 1]))
  }

  function CountBad(marks: seq<Mark>): nat {
    |set i | 0 <= i < |marks| && marks[i].Badly?|
  }

  lemma OneMoreBad(marks: seq<Mark>, m: Mark)
    ensures CountBad(marks + [m]) == CountBad(marks) + if m.Badly? then 1 else 0
  {
    var more := marks + [m];
    var before, after := set i | 0 <= i < |marks| && marks[i].Badly?, set i | 0 <= i < |more| && more[i].Badly?;
    assert after == before + if m.Badly? then {|marks|} else {};
  }

  /** The streak is the number of failed sessions since the last one that was none, which itself counts when its
      outcome could not be applied. */
  lemma {:induction false} StreakCounts(failures: nat, marks: seq<Mark>, k: nat)
    requires k <= |marks| && forall i :: k <= i < |marks| ==> !Resets(marks[i])
    requires k > 0 ==> Resets(marks[k - 1])
    ensures Streak(failures, marks) ==
              CountBad(marks[k..]) + if k == 0 then failures else if marks[k - 1].Botched? then 1 else 0
    decreases |marks|
  {
    if k == |marks| {
      assert marks[k..] == [];
    } else {
      var n := |marks| - 1;
      StreakCounts(failures, marks[..n], k);
      assert marks[k..] == marks[..n][k..] + [marks[n]];
      OneMoreBad(marks[..n][k..], marks[n]);
    }
  }

  predicate Raised(db: Lifecycle.Db, t: string, s: Lifecycle.Session) {
    || s.commits == Lifecycle.Raises
    || (s.commits == Lifecycle.Yes && s.checks == Lifecycle.Raises)
    || (s.commits == Lifecycle.Yes && s.checks == Lifecycle.Yes && Lifecycle.NextCritic(db.agents, t) in db.agents)
  }

  lemma ThreeCommits(db: Lifecycle.Db, w: Lifecycle.Write, w': Lifecycle.Write, w'': Lifecycle.Write)
    ensures Lifecycle.ApplyAll(db, [w, w', w'']) == Lifecycle.Apply(Lifecycle.Apply(Lifecycle.Apply(db, w), w'), w'')
  {
    hide Lifecycle.Apply;
    Lifecycle.ApplyTwo(db, w, w');
    Lifecycle.ApplyTwo(Lifecycle.Apply(db, w), w', w'');
    Lifecycle.ApplyAppend(db, [w], [w', w'']);
    assert [w] + [w', w''] == [w, w', w''];
  }
}

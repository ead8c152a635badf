/** A planner turn while the owner keeps sending feedback. Feedback does not wait for the lifecycle lock,
    so it may commit between any two commits of the turn. Every commit that stamps the planner's row
    gets a new time. */
module Wakeup {
  datatype PlannerState = Runnable | OnHold | Halted | Satisfied

  datatype Outcome = Done | Asked | Failed | Deferred

  /** Where a turn is; u is the stamp of the row it read, revision what it found to revise. */
  datatype Pc =
    | Idle
    | RowRead(u: nat)
    | Revising(u: nat, revision: set<nat>)
    | Briefed(u: nat, revision: set<nat>, inbox: set<nat>)
    | Started(u: nat, revision: set<nat>, inbox: set<nat>)
    | Returned(u: nat, inbox: set<nat>, outcome: Outcome)
    | Delivered(u: nat, outcome: Outcome)
    | Ended(u: nat, outcome: Outcome)
    | Checked(u: nat, outcome: Outcome, more: bool)

  /** The planner's row, its messages (true once delivered), the revisions it still owes, how many of its
      run rows are open, and the turn in progress. */
  datatype World = World(state: PlannerState, updated: nat, clock: nat, messages: seq<bool>, owed: set<nat>,
                         open: nat, pc: Pc)

  datatype Step =
    | Feedback(revises: bool)
    | Answer
    | Hold
    | Wake
    | ReadRow
    | ReadRevision
    | Brief
    | StartRun
    | Return(outcome: Outcome)
    | Deliver(id: nat)
    | Delivering
    | EndRun
    | CheckRevisions
    | Finish
    | Crash
    | Recover

  function Undelivered(messages: seq<bool>): set<nat> {
    set i: nat | i < |messages| && !messages[i]
  }

  predicate Delivers(o: Outcome) { o.Done? || o.Asked? }

  function Woken(w: World): World {
    w.(state := Runnable, updated := w.clock, clock := w.clock + 1, messages := w.messages + [false])
  }

  predicate Enabled(w: World, step: Step) {
    match step
    case Feedback(_) => true
    case Answer => w.pc.Idle?
    case Hold => w.pc.Idle? && w.state == Runnable
    case Wake => w.pc.Idle? && w.state == OnHold
    case ReadRow => w.pc.Idle? && w.state == Runnable
    case ReadRevision => w.pc.RowRead?
    case Brief => w.pc.Revising?
    case StartRun => w.pc.Briefed?
    case Return(_) => w.pc.Started?
    case Deliver(id) => w.pc.Returned? && Delivers(w.pc.outcome) && id in w.pc.inbox && id < |w.messages|
    case Delivering => w.pc.Returned? && (Delivers(w.pc.outcome) ==> w.pc.inbox == {})
    case EndRun => w.pc.Delivered?
    case CheckRevisions => w.pc.Ended?
    case Finish => w.pc.Checked?
    case Crash => true
    case Recover => w.pc.Idle? && w.open > 0
  }

  /** The state the turn asks for. */
  function Wanted(o: Outcome, more: bool): PlannerState {
    match o
    case Deferred => Runnable
    case Done => if more then Runnable else Satisfied
    case _ => Halted
  }

  /** The final update takes effect only if nobody stamped the row since it was read. */
  function Finished(w: World): World
    requires w.pc.Checked?
  {
    w.(state := if w.updated == w.pc.u then Wanted(w.pc.outcome, w.pc.more) else w.state, pc := Idle)
  }

  function Next(w: World, step: Step): World
    requires Enabled(w, step)
  {
    match step
    case Feedback(revises) => Woken(w).(owed := if revises then w.owed + {|w.messages|} else w.owed)
    case Answer => Woken(w)
    case Hold => w.(state := OnHold, updated := w.clock, clock := w.clock + 1)
    case Wake => w.(state := Runnable, updated := w.clock, clock := w.clock + 1)
    case ReadRow => w.(pc := RowRead(w.updated))
    case ReadRevision => w.(pc := Revising(w.pc.u, w.owed))
    case Brief => w.(pc := Briefed(w.pc.u, w.pc.revision, Undelivered(w.messages)))
    case StartRun => w.(pc := Started(w.pc.u, w.pc.revision, w.pc.inbox), open := w.open + 1)
    case Return(o) =>
      w.(pc := Returned(w.pc.u, w.pc.inbox, o), owed := if o.Done? then w.owed - First(w.pc.revision) else w.owed)
    case Deliver(id) => w.(messages := w.messages[id := true], pc := w.pc.(inbox := w.pc.inbox - {id}))
    case Delivering => w.(pc := Delivered(w.pc.u, w.pc.outcome))
    case EndRun => w.(pc := Ended(w.pc.u, w.pc.outcome), open := if w.open > 0 then w.open - 1 else 0)
    case CheckRevisions => w.(pc := Checked(w.pc.u, w.pc.outcome, w.owed != {}))
    case Finish => Finished(w)
    case Crash => w.(pc := Idle)
    case Recover => w.(state := Halted, updated := w.clock, clock := w.clock + 1, open := w.open - 1)
  }

  /** The oldest revision owed, which is the one a turn works on. */
  function First(owed: set<nat>): set<nat> {
    set r | r in owed && forall s :: s in owed ==> r <= s
  }

  const Start := World(Runnable, 0, 1, [false], {}, 0, Idle)

  predicate CanRun(w: World, run: seq<Step>)
    decreases |run|
  {
    run == [] || (Enabled(w, run[0]) && CanRun(Next(w, run[0]), run[1..]))
  }

  function After(w: World, run: seq<Step>): World
    requires CanRun(w, run)
    decreases |run|
  {
    if run == [] then w else After(Next(w, run[0]), run[1..])
  }

  // --- what holds in every interleaving ----------------------------------------------

  /** A turn runs only while the planner is runnable, and as long as nobody stamped the row
      since it was read, nothing undelivered escapes the turn. */
  predicate TurnOk(w: World) {
    match w.pc
    case Idle => true
    case RowRead(u) => w.state == Runnable && u <= w.updated
    case Revising(u, _) => w.state == Runnable && u <= w.updated
    case Briefed(u, _, inbox) => w.state == Runnable && u <= w.updated && (w.updated == u ==> Undelivered(w.messages) <= inbox)
    case Started(u, _, inbox) => w.state == Runnable && u <= w.updated && (w.updated == u ==> Undelivered(w.messages) <= inbox)
    case Returned(u, inbox, o) => w.state == Runnable && u <= w.updated && (w.updated == u ==> Undelivered(w.messages) <= inbox)
    case Delivered(u, o) => w.state == Runnable && u <= w.updated && (w.updated == u && Delivers(o) ==> Undelivered(w.messages) == {})
    case Ended(u, o) => w.state == Runnable && u <= w.updated && (w.updated == u && Delivers(o) ==> Undelivered(w.messages) == {})
    case Checked(u, o, more) =>
      && w.state == Runnable && u <= w.updated && (w.updated == u && Delivers(o) ==> Undelivered(w.messages) == {})
      && (w.updated == u && !more ==> w.owed == {})
  }

  predicate Inv(w: World) {
    && w.updated < w.clock && TurnOk(w)
    && (w.state == Satisfied ==> Undelivered(w.messages) == {} && w.owed == {})
  }

  lemma StepKeeps(w: World, step: Step)
    requires Inv(w) && Enabled(w, step)
    ensures Inv(Next(w, step))
  {
    var w' := Next(w, step);
    if step.Deliver? {
      assert Undelivered(w'.messages) == Undelivered(w.messages) - {step.id};
    }
  }

  lemma {:induction false} RunKeeps(w: World, run: seq<Step>)
    requires Inv(w) && CanRun(w, run)
    ensures Inv(After(w, run))
    decreases |run|
  {
    hide Inv;
    hide Enabled;
    hide Next;
    if run != [] {
      StepKeeps(w, run[0]);
      RunKeeps(Next(w, run[0]), run[1..]);
    }
  }

  /** The state after the first k steps. */
  function At(w: World, run: seq<Step>, k: nat): World
    requires CanRun(w, run) && k <= |run|
    decreases k
  {
    if k == 0 then w else At(Next(w, run[0]), run[1..], k - 1)
  }

  lemma {:induction false} AtNext(w: World, run: seq<Step>, k: nat)
    requires CanRun(w, run) && k < |run|
    ensures Enabled(At(w, run, k), run[k]) && At(w, run, k + 1) == Next(At(w, run, k), run[k])
    decreases k
  {
    hide Enabled;
    hide Next;
    if k > 0 { AtNext(Next(w, run[0]), run[1..], k - 1); }
  }

  predicate HasInbox(pc: Pc) { pc.Briefed? || pc.Started? || pc.Returned? }

  /** Step j made the brief of the turn that is still going on at step k. */
  predicate OwnBrief(run: seq<Step>, j: nat, k: nat) {
    && j < k <= |run| && run[j].Brief?
    && forall m :: j < m < k ==> !(run[m].ReadRow? || run[m].Brief? || run[m].Finish? || run[m].Crash?)
  }

  /** What a turn holds to deliver was undelivered when that same turn made its brief. */
  lemma {:induction false} InboxFromOwnBrief(run: seq<Step>, n: nat) returns (j: nat)
    requires CanRun(Start, run) && n <= |run| && HasInbox(At(Start, run, n).pc)
    ensures OwnBrief(run, j, n) && At(Start, run, n).pc.inbox <= Undelivered(At(Start, run, j).messages)
    decreases n
  {
    hide CanRun;
    AtNext(Start, run, n - 1);
    var w := At(Start, run, n - 1);
    hide At;
    if HasInbox(w.pc) {
      j := InboxFromOwnBrief(run, n - 1);
      assert OwnBrief(run, j, n);
    } else {
      j := n - 1;
    }
  }

  /** In every interleaving: a message is marked delivered only by a turn whose own brief contained it,
      and a satisfied planner has read every message and owes no revision. */
  lemma NothingIsLost(run: seq<Step>)
    requires CanRun(Start, run)
    ensures forall k: nat :: k < |run| && run[k].Deliver? ==>
              exists j: nat :: OwnBrief(run, j, k) && run[k].id in Undelivered(At(Start, run, j).messages)
    ensures var w := After(Start, run);
            w.state == Satisfied ==> Undelivered(w.messages) == {} && w.owed == {}
  {
    RunKeeps(Start, run);
    hide CanRun;
    hide After;
    hide Next;
    forall k: nat | k < |run| && run[k].Deliver?
      ensures exists j: nat :: OwnBrief(run, j, k) && run[k].id in Undelivered(At(Start, run, j).messages)
    {
      AtNext(Start, run, k);
      var j := InboxFromOwnBrief(run, k);
    }
  }

  /** Neither the turn nor its end is cut short within the run. */
  predicate WithinTurn(run: seq<Step>) {
    forall s :: s in run ==> !s.Finish? && !s.Crash?
  }

  predicate HasFeedback(run: seq<Step>) {
    exists s :: s in run && s.Feedback?
  }

  /** During a turn the row is stamped exactly by feedback. */
  lemma {:induction false} StampedByFeedback(w: World, run: seq<Step>)
    requires Inv(w) && !w.pc.Idle? && CanRun(w, run) && WithinTurn(run)
    ensures var w' := After(w, run);
            !w'.pc.Idle? && w'.pc.u == w.pc.u && w'.updated >= w.updated && (w'.updated > w.updated <==> HasFeedback(run))
    decreases |run|
  {
    if run != [] {
      var mid := Next(w, run[0]);
      StepKeeps(w, run[0]);
      assert run[0] in run;
      assert forall s :: s in run <==> s == run[0] || s in run[1..];
      assert WithinTurn(run[1..]);
      StampedByFeedback(mid, run[1..]);
      assert HasFeedback(run) <==> run[0].Feedback? || HasFeedback(run[1..]);
    }
  }

  /** Feedback that commits after the row was read keeps the planner runnable when the turn ends. Without
      any, the turn gets the state it asks for, and if it ended well nothing is left undelivered. */
  lemma NoLostWakeup(w: World, run: seq<Step>)
    requires Inv(w) && Enabled(w, ReadRow) && CanRun(Next(w, ReadRow), run) && WithinTurn(run)
    requires After(Next(w, ReadRow), run).pc.Checked?
    ensures var last := After(Next(w, ReadRow), run);
            && Inv(Finished(last))
            && (if HasFeedback(run) then Finished(last).state == Runnable
                else && Finished(last).state == Wanted(last.pc.outcome, last.pc.more)
                     && Finished(last).state == (if last.pc.outcome.Deferred? then Runnable
                                                 else if !last.pc.outcome.Done? then Halted
                                                 else if last.pc.more then Runnable else Satisfied)
                     && (Delivers(last.pc.outcome) ==> Undelivered(Finished(last).messages) == {}))
  {
    StepKeeps(w, ReadRow);
    RunKeeps(Next(w, ReadRow), run);
    StampedByFeedback(Next(w, ReadRow), run);
    StepKeeps(After(Next(w, ReadRow), run), Finish);
  }

  // --- messages left with a halted planner ---------------------------------------------------

  /** The planner is halted, between turns, and has messages it was not given. */
  predicate Stranded(w: World) {
    w.pc.Idle? && w.state == Halted && Undelivered(w.messages) != {}
  }

  /** Messages are stranded precisely by recovering a planner's run while some are undelivered, and by a turn that
      fails without feedback in between; and only feedback or an answer gets the planner going again. */
  lemma StrandedIff(w: World, step: Step)
    requires Inv(w) && Enabled(w, step)
    ensures !Stranded(w) ==>
              (Stranded(Next(w, step)) <==>
                 && Undelivered(w.messages) != {}
                 && (step.Recover? || (step.Finish? && w.updated == w.pc.u && w.pc.outcome.Failed?)))
    ensures Stranded(w) ==> (Stranded(Next(w, step)) <==> !step.Feedback? && !step.Answer?)
  {
  }

  lemma {:induction false} NewMessageStays(w: World, run: seq<Step>, id: nat)
    requires Inv(w) && CanRun(w, run) && WithinTurn(run)
    requires id < |w.messages| && !w.messages[id]
    requires !w.pc.Idle? && !w.pc.RowRead? && !w.pc.Revising? && (HasInbox(w.pc) ==> id !in w.pc.inbox)
    ensures id in Undelivered(After(w, run).messages)
    decreases |run|
  {
    if run != [] {
      StepKeeps(w, run[0]);
      assert run[0] in run && forall s :: s in run[1..] ==> s in run;
      NewMessageStays(Next(w, run[0]), run[1..], id);
    }
  }

  /** Feedback that comes after the brief of a session that then crashes is stranded when the run is recovered. */
  lemma RecoveryStrandsFeedback(w: World, revises: bool, run: seq<Step>)
    requires Inv(w) && HasInbox(w.pc) && (forall i :: i in w.pc.inbox ==> i < |w.messages|)
    requires CanRun(Next(w, Feedback(revises)), run) && WithinTurn(run)
    requires Enabled(Next(After(Next(w, Feedback(revises)), run), Crash), Recover)
    ensures Stranded(Next(Next(After(Next(w, Feedback(revises)), run), Crash), Recover))
  {
    var woken := Next(w, Feedback(revises));
    StepKeeps(w, Feedback(revises));
    NewMessageStays(woken, run, |w.messages|);
  }

  lemma Prepended(w: World, step: Step, w': World, rest: seq<Step>) returns (run: seq<Step>)
    requires Enabled(w, step) && Next(w, step) == w' && CanRun(w', rest)
    ensures run == [step] + rest && CanRun(w, run) && After(w, run) == After(w', rest)
  {
    hide Next;
    hide Enabled;
    run := [step] + rest;
    assert run[1..] == rest;
  }

  lemma Nothing(w: World) returns (run: seq<Step>)
    ensures run == [] && CanRun(w, run) && After(w, run) == w
  {
    run := [];
  }

  const Late := World(Runnable, 1, 2, [false, false], {}, 1, Started(0, {}, {0}))

  lemma ToLate(rest: seq<Step>) returns (run: seq<Step>)
    requires CanRun(Late, rest)
    ensures run == [ReadRow, ReadRevision, Brief, StartRun, Feedback(false)] + rest
    ensures CanRun(Start, run) && After(Start, run) == After(Late, rest)
  {
    hide CanRun;
    hide After;
    var started := Start.(pc := Started(0, {}, {0}), open := 1);
    assert Undelivered(Start.messages) == {0};
    run := Prepended(started, Feedback(false), Late, rest);
    run := Prepended(Start.(pc := Briefed(0, {}, {0})), StartRun, started, run);
    run := Prepended(Start.(pc := Revising(0, {})), Brief, Start.(pc := Briefed(0, {}, {0})), run);
    run := Prepended(Start.(pc := RowRead(0)), ReadRevision, Start.(pc := Revising(0, {})), run);
    run := Prepended(Start, ReadRow, Start.(pc := RowRead(0)), run);
  }

  /** Such a state is reachable: feedback arrives while the session runs, the process dies, and the run is recovered. */
  lemma StrandedIsReachable() returns (run: seq<Step>)
    ensures run == [ReadRow, ReadRevision, Brief, StartRun, Feedback(false), Crash, Recover]
    ensures CanRun(Start, run) && Stranded(After(Start, run)) && 1 in Undelivered(After(Start, run).messages)
  {
    hide CanRun;
    hide After;
    var end := World(Halted, 2, 3, [false, false], {}, 0, Idle);
    assert 1 in Undelivered(end.messages);
    run := Nothing(end);
    run := Prepended(Late.(pc := Idle), Recover, end, run);
    run := Prepended(Late, Crash, Late.(pc := Idle), run);
    run := ToLate(run);
  }
}

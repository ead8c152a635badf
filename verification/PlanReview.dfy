/** Advice on proposals: the claim of a review, its session, and what the owner does meanwhile. The owner's
    decisions on proposals do not wait for the lifecycle lock; recovery does. A crash may come after any commit. */
module PlanReview {
  datatype ReviewStatus = Running | Retryable | Done(advice: string) | Failed

  datatype AttemptStatus = UnderWay | ToRetry | Complete | Broken

  /** A session's run row, open until it ended or was recovered. */
  datatype RunRow = RunRow(proposal: nat, open: bool)

  /** What a session came back with: usable advice, something unusable, or a failure of the
      host that is worth a retry. */
  datatype Outcome = Advice(text: string) | Unusable | Interrupted

  datatype Pc =
    | Idle
    | Chosen(p: nat)
    | Claimed(p: nat)
    | Started(p: nat, r: nat)
    | Attempting(p: nat, r: nat)
    | Answered(p: nat, r: nat, outcome: Outcome)
    | Settled(p: nat, r: nat, outcome: Outcome)
    | Marked(p: nat, r: nat)

  datatype World = World(pending: set<nat>, reviews: map<nat, ReviewStatus>, runs: seq<RunRow>,
                         attempts: map<nat, AttemptStatus>, pc: Pc)

  datatype Step =
    | Propose(p: nat)
    | Decide(p: nat)
    | Choose(p: nat)
    | Claim
    | StartRun
    | AddAttempt
    | Return(outcome: Outcome)
    | Settle
    | Mark
    | EndRun
    | Crash
    | Recover(r: nat)

  predicate HasReview(w: World, p: nat, s: ReviewStatus) { p in w.reviews && w.reviews[p] == s }

  /** Pending, and its review neither under way nor finished. */
  predicate Claimable(w: World, p: nat) {
    p in w.pending && (p !in w.reviews || w.reviews[p] == Retryable)
  }

  predicate Enabled(w: World, step: Step) {
    match step
    case Propose(p) => p !in w.pending && p !in w.reviews
    case Decide(p) => p in w.pending
    case Choose(p) => w.pc.Idle? && Claimable(w, p)
    case Claim => w.pc.Chosen?
    case StartRun => w.pc.Claimed?
    case AddAttempt => w.pc.Started?
    case Return(_) => w.pc.Attempting?
    case Settle => w.pc.Answered?
    case Mark => w.pc.Settled?
    case EndRun => w.pc.Marked?
    case Crash => true
    case Recover(r) => w.pc.Idle? && r < |w.runs| && w.runs[r].open
  }

  function Closed(runs: seq<RunRow>, r: nat): seq<RunRow> {
    if r < |runs| then runs[r := runs[r].(open := false)] else runs
  }

  /** Advice is recorded only if the proposal is still pending and the claim still stands. */
  predicate Accepted(w: World, p: nat) { HasReview(w, p, Running) && p in w.pending }

  /** Advice settles review and attempt in one transaction; failures do so one after the other. */
  function SettledWorld(w: World, p: nat, r: nat, o: Outcome): World {
    match o
    case Advice(text) =>
      w.(reviews := if HasReview(w, p, Running) then w.reviews[p := if p in w.pending then Done(text) else Failed] else w.reviews,
         attempts := w.attempts[r := if Accepted(w, p) then Complete else Broken])
    case Unusable => w.(reviews := w.reviews[p := Failed])
    case Interrupted => w.(reviews := w.reviews[p := Retryable])
  }

  /** Recovery releases a claim only through the interrupted attempt's own row. */
  function Recovered(w: World, r: nat): World
    requires r < |w.runs|
  {
    var p := w.runs[r].proposal;
    if r in w.attempts && w.attempts[r] == UnderWay then
      w.(runs := Closed(w.runs, r), attempts := w.attempts[r := ToRetry],
         reviews := if HasReview(w, p, Running) then w.reviews[p := Retryable] else w.reviews)
    else w.(runs := Closed(w.runs, r))
  }

  function Next(w: World, step: Step): World
    requires Enabled(w, step)
  {
    match step
    case Propose(p) => w.(pending := w.pending + {p})
    case Decide(p) => w.(pending := w.pending - {p})
    case Choose(p) => w.(pc := Chosen(p))
    case Claim =>
      if Claimable(w, w.pc.p) then w.(reviews := w.reviews[w.pc.p := Running], pc := Claimed(w.pc.p)) else w.(pc := Idle)
    case StartRun => w.(runs := w.runs + [RunRow(w.pc.p, true)], pc := Started(w.pc.p, |w.runs|))
    case AddAttempt => w.(attempts := w.attempts[w.pc.r := UnderWay], pc := Attempting(w.pc.p, w.pc.r))
    case Return(o) => w.(pc := Answered(w.pc.p, w.pc.r, o))
    case Settle => SettledWorld(w, w.pc.p, w.pc.r, w.pc.outcome).(pc := Settled(w.pc.p, w.pc.r, w.pc.outcome))
    case Mark =>
      var marked := if w.pc.outcome.Interrupted? then w.attempts[w.pc.r := ToRetry]
                    else if w.pc.outcome.Unusable? then w.attempts[w.pc.r := Broken] else w.attempts;
      w.(attempts := marked, pc := Marked(w.pc.p, w.pc.r))
    case EndRun => w.(runs := Closed(w.runs, w.pc.r), pc := Idle)
    case Crash => w.(pc := Idle)
    case Recover(r) => Recovered(w, r)
  }

  const Empty := World({}, map[], [], map[], Idle)

  predicate CanRun(w: World, run: seq<Step>)
    decreases |run|
  {
    run == [] || (Enabled(w, run[0]) && CanRun(Next(w, run[0]), run[1..]))
  }

  function After(w: World, run: seq<Step>): World
    requires CanRun(w, run)
    decreases |run|
  {
    if run == [] then w else After(Next(w, run[0]), run[1..])
  }

  // --- the invariant -------------------------------------------------------------------------

  /** A session between claim and settlement has an unfinished review of its own, and its run stays
      open until its attempt is marked. */
  predicate ClaimOk(w: World) {
    match w.pc
    case Idle => true
    case Chosen(p) => true
    case Claimed(p) => HasReview(w, p, Running)
    case Started(p, r) => HasReview(w, p, Running) && OpenRun(w, p, r) && r !in w.attempts
    case Attempting(p, r) => HasReview(w, p, Running) && OpenRun(w, p, r) && r in w.attempts
    case Answered(p, r, _) => HasReview(w, p, Running) && OpenRun(w, p, r) && r in w.attempts
    case Settled(p, r, o) => OpenRun(w, p, r) && r in w.attempts && (o.Advice? ==> w.attempts[r] != UnderWay)
    case Marked(p, r) => OpenRun(w, p, r) && r in w.attempts && w.attempts[r] != UnderWay
  }

  predicate OpenRun(w: World, p: nat, r: nat) {
    r < |w.runs| && w.runs[r] == RunRow(p, true)
  }

  /** Attempts belong to runs, and one that is under way to an open run. */
  predicate Inv(w: World) {
    ClaimOk(w) && forall r :: r in w.attempts ==> r < |w.runs| && (w.attempts[r] == UnderWay ==> w.runs[r].open)
  }

  lemma StepKeeps(w: World, step: Step)
    requires Inv(w) && Enabled(w, step)
    ensures Inv(Next(w, step))
  {
  }

  predicate Final(s: ReviewStatus) { s.Done? || s.Failed? }

  /** One step of any kind: finished reviews are final, and advice is recorded only for a proposal that is pending
      at that commit, only from a session that returned it, and only where nothing had been recorded. */
  lemma AdviceIsTimely(w: World, step: Step, p: nat)
    requires Inv(w) && Enabled(w, step)
    ensures var w' := Next(w, step);
            && (p in w.reviews && Final(w.reviews[p]) ==> HasReview(w', p, w.reviews[p]))
            && (p in w'.reviews && w'.reviews[p].Done? && !HasReview(w, p, w'.reviews[p]) ==>
                  && step.Settle? && w.pc.p == p && w.pc.outcome == Advice(w'.reviews[p].advice)
                  && p in w.pending && HasReview(w, p, Running))
  {
  }

  lemma {:induction false} FinishedForGood(w: World, run: seq<Step>, p: nat)
    requires Inv(w) && CanRun(w, run) && p in w.reviews && Final(w.reviews[p])
    ensures Inv(After(w, run)) && HasReview(After(w, run), p, w.reviews[p])
    decreases |run|
  {
    hide Inv;
    hide Enabled;
    hide Next;
    if run != [] {
      StepKeeps(w, run[0]);
      AdviceIsTimely(w, run[0], p);
      FinishedForGood(Next(w, run[0]), run[1..], p);
    }
  }

  // --- claims that nothing can release -----------------------------------------------------------

  /** A claimed review whose session is gone and that no attempt stands for. */
  predicate Orphan(w: World, p: nat) {
    && HasReview(w, p, Running) && (w.pc.Idle? || w.pc.p != p)
    && forall r :: r in w.attempts && r < |w.runs| && w.runs[r].proposal == p ==> w.attempts[r] != UnderWay
  }

  lemma OrphanStays(w: World, step: Step, p: nat)
    requires Inv(w) && Enabled(w, step) && Orphan(w, p)
    ensures Orphan(Next(w, step), p)
    ensures Next(w, step).pc.Idle? || Next(w, step).pc.p != p
  {
  }

  /** Such a review is never claimed or settled again, whatever is recovered. */
  lemma {:induction false} OrphanForGood(w: World, run: seq<Step>, p: nat)
    requires Inv(w) && CanRun(w, run) && Orphan(w, p)
    ensures Orphan(After(w, run), p)
    decreases |run|
  {
    hide Inv;
    hide Enabled;
    hide Next;
    hide Orphan;
    if run != [] {
      StepKeeps(w, run[0]);
      OrphanStays(w, run[0], p);
      OrphanForGood(Next(w, run[0]), run[1..], p);
    }
  }

  /** Between sessions a claimed review can be released by recovering some run precisely if it is no orphan. */
  lemma OrphanIffNotRecoverable(w: World, p: nat)
    requires Inv(w) && w.pc.Idle? && HasReview(w, p, Running)
    ensures !Orphan(w, p) <==> exists r: nat :: Enabled(w, Recover(r)) && HasReview(Next(w, Recover(r)), p, Retryable)
  {
    if !Orphan(w, p) {
      var r: nat :| r in w.attempts && r < |w.runs| && w.runs[r].proposal == p && w.attempts[r] == UnderWay;
      assert Enabled(w, Recover(r)) && HasReview(Next(w, Recover(r)), p, Retryable);
    }
  }

  ghost predicate Reachable(w: World) {
    exists run: seq<Step> :: Reaches(run, w)
  }

  predicate Reaches(run: seq<Step>, w: World) {
    CanRun(Empty, run) && After(Empty, run) == w
  }

  lemma {:induction false} RunAppend(w: World, run: seq<Step>, step: Step)
    requires CanRun(w, run) && Enabled(After(w, run), step)
    ensures CanRun(w, run + [step]) && After(w, run + [step]) == Next(After(w, run), step)
    decreases |run|
  {
    hide Enabled;
    hide Next;
    if run == [] {
      assert run + [step] == [step] && [step][1..] == [];
      assert CanRun(Next(w, step), []) && After(Next(w, step), []) == Next(w, step);
    } else {
      assert (run + [step])[1..] == run[1..] + [step];
      RunAppend(Next(w, run[0]), run[1..], step);
    }
  }

  lemma ReachNext(w: World, step: Step) returns (w': World)
    requires Reachable(w) && Enabled(w, step)
    ensures Reachable(w') && w' == Next(w, step)
  {
    hide Enabled;
    hide Next;
    var run: seq<Step> :| Reaches(run, w);
    RunAppend(Empty, run, step);
    w' := Next(w, step);
    assert Reaches(run + [step], w');
  }

  lemma {:induction false} RunKeeps(w: World, run: seq<Step>)
    requires Inv(w) && CanRun(w, run)
    ensures Inv(After(w, run))
    decreases |run|
  {
    hide Inv;
    hide Enabled;
    hide Next;
    if run != [] {
      StepKeeps(w, run[0]);
      RunKeeps(Next(w, run[0]), run[1..]);
    }
  }

  lemma ReachableKeeps(w: World)
    requires Reachable(w)
    ensures Inv(w)
  {
    var run: seq<Step> :| Reaches(run, w);
    RunKeeps(Empty, run);
  }

  lemma ReachEmpty()
    ensures Reachable(Empty)
  {
    assert Reaches([], Empty);
  }

  /** A crash between the claim and the attempt's row is enough to leave a review claimed for good. */
  lemma EarlyCrashOrphans(p: nat) returns (w: World)
    ensures Reachable(w) && p in w.pending && Orphan(w, p)
  {
    hide Reachable;
    ReachEmpty();
    w := ReachNext(Empty, Propose(p));
    w := ReachNext(w, Choose(p));
    w := ReachNext(w, Claim);
    w := ReachNext(w, Crash);
  }

  /** A deferred session that crashes between releasing its claim and marking its attempt can later release
      somebody else's: recovering it makes the review claimable while another attempt is still under way. */
  lemma RecoveryCanReleaseAnotherClaim(p: nat) returns (w: World)
    ensures Reachable(w) && w.pc.Idle? && Claimable(w, p)
    ensures |w.runs| == 2 && w.runs[1] == RunRow(p, true) && 1 in w.attempts && w.attempts[1] == UnderWay
  {
    hide Reachable;
    ReachEmpty();
    w := ReachNext(Empty, Propose(p));
    w := ReachNext(w, Choose(p));
    w := ReachNext(w, Claim);
    w := ReachNext(w, StartRun);
    w := ReachNext(w, AddAttempt);
    w := ReachNext(w, Return(Interrupted));
    w := ReachNext(w, Settle);
    w := ReachNext(w, Crash);
    w := ReachNext(w, Choose(p));
    w := ReachNext(w, Claim);
    w := ReachNext(w, StartRun);
    w := ReachNext(w, AddAttempt);
    w := ReachNext(w, Crash);
    w := ReachNext(w, Recover(0));
  }

  /** Attempts of the proposal that are on record as still under way. */
  predicate Unfinished(w: World, p: nat, r: nat) {
    r in w.attempts && r < |w.runs| && w.runs[r].proposal == p && w.attempts[r] == UnderWay
  }

  /** Recovering a run makes its review claimable again exactly when its own attempt was under way
      and the review claimed; nothing else about any review changes. */
  lemma RecoveryReleases(w: World, r: nat, p: nat)
    requires Inv(w) && Enabled(w, Recover(r))
    ensures var w' := Next(w, Recover(r));
            && (HasReview(w, p, Running) && HasReview(w', p, Retryable) <==>
                  w.runs[r].proposal == p && HasReview(w, p, Running) && Unfinished(w, p, r))
            && (p in w.reviews && !HasReview(w, p, Running) ==> HasReview(w', p, w.reviews[p]))
            && (p !in w.reviews ==> p !in w'.reviews)
            && forall q: nat :: q != r ==> (Unfinished(w', p, q) <==> Unfinished(w, p, q))
  {
  }
}

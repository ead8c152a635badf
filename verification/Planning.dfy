/** Planners and proposals as the scheduler sees them, and how much planning work is left. */
module Planning {
  import opened Sums

  datatype PlannerState = Awake | OnHold | Halted | Satisfied

  /** A project's planner, how many requested revisions it has not answered with a proposal, and
      when its row was last stamped. */
  datatype Planner = Planner(state: PlannerState, revisions: nat, updated: nat)

  datatype ReviewState = Unreviewed | Reviewing | Retryable | Reviewed

  datatype Proposal = Proposal(project: string, pending: bool, review: ReviewState)

  /** How a planning session ended; an invalid outcome is one the host rejects. */
  datatype PlanOutcome = Proposed(valid: bool) | Questioned(valid: bool) | PlanYielded | PlanFailed | PlanMissing | PlanDeferred

  datatype ReviewOutcome = Advised | Unusable | ReviewDeferred

  predicate Going(p: Planner) { p.state in {Awake, OnHold} }

  /** Pending, and its review is neither under way nor finished. */
  predicate Reviewable(p: Proposal) {
    p.pending && p.review in {Unreviewed, Retryable}
  }

  function PlannerAfter(p: Planner, o: PlanOutcome): Planner {
    if o.PlanDeferred? then p.(state := Awake)
    else if o == Proposed(true) then
      var left := if p.revisions > 0 then p.revisions - 1 else 0;
      p.(state := if left > 0 then Awake else Satisfied, revisions := left)
    else p.(state := Halted)
  }

  function ProposalsAfter(proposals: seq<Proposal>, project: string, o: PlanOutcome): seq<Proposal> {
    if o == Proposed(true) then proposals + [Proposal(project, true, Unreviewed)] else proposals
  }

  function ReviewAfter(o: ReviewOutcome): ReviewState {
    if o.ReviewDeferred? then Retryable else Reviewed
  }

  // --- planning work ------------------------------------------------------------

  function PlannerWeight(p: Planner): nat {
    2 * p.revisions + if Going(p) then 2 else 0
  }

  function PlannerWeights(planners: map<string, Planner>): map<string, nat> {
    map p | p in planners :: PlannerWeight(planners[p])
  }

  function ToReview(proposals: seq<Proposal>): nat {
    if proposals == [] then 0
    else ToReview(proposals[..|proposals| - 1]) + if Reviewable(proposals[|proposals| - 1]) then 1 else 0
  }

  ghost function PlanningWork(planners: map<string, Planner>, proposals: seq<Proposal>): nat {
    Sum(PlannerWeights(planners)) + ToReview(proposals)
  }

  lemma {:induction false} ReviewUpdate(proposals: seq<Proposal>, i: nat, p: Proposal)
    requires i < |proposals| && Reviewable(proposals[i]) && !Reviewable(p)
    ensures ToReview(proposals[i := p]) == ToReview(proposals) - 1
    decreases |proposals|
  {
    var n := |proposals| - 1;
    if i == n {
      assert proposals[i := p][..n] == proposals[..n];
    } else {
      assert proposals[i := p][..n] == proposals[..n][i := p];
      ReviewUpdate(proposals[..n], i, p);
    }
  }

  /** A planning session that is not deferred uses up more than the proposal it may leave to review. */
  lemma PlanDecreases(planners: map<string, Planner>, proposals: seq<Proposal>, project: string, o: PlanOutcome)
    requires project in planners && Going(planners[project]) && !o.PlanDeferred?
    ensures PlanningWork(planners[project := PlannerAfter(planners[project], o)], ProposalsAfter(proposals, project, o))
            < PlanningWork(planners, proposals)
  {
    var after := PlannerAfter(planners[project], o);
    assert PlannerWeights(planners[project := after]) == PlannerWeights(planners)[project := PlannerWeight(after)];
    SumUpdate(PlannerWeights(planners), project, PlannerWeight(after));
    var more := ProposalsAfter(proposals, project, o);
    if o == Proposed(true) { assert more[..|more| - 1] == proposals; }
  }

  lemma ReviewDecreases(planners: map<string, Planner>, proposals: seq<Proposal>, i: nat, o: ReviewOutcome)
    requires i < |proposals| && Reviewable(proposals[i]) && !o.ReviewDeferred?
    ensures PlanningWork(planners, proposals[i := proposals[i].(review := ReviewAfter(o))]) < PlanningWork(planners, proposals)
  {
    ReviewUpdate(proposals, i, proposals[i].(review := ReviewAfter(o)));
  }

  /** Putting planners on hold or waking them again neither adds nor removes work. */
  ghost predicate OnlyHolds(planners: map<string, Planner>, planners': map<string, Planner>) {
    planners'.Keys == planners.Keys
    && forall p :: p in planners ==>
         planners'[p].revisions == planners[p].revisions && (Going(planners'[p]) <==> Going(planners[p]))
         && (!Going(planners[p]) ==> planners'[p] == planners[p])
  }

  lemma HoldsKeepWork(planners: map<string, Planner>, planners': map<string, Planner>, proposals: seq<Proposal>)
    requires OnlyHolds(planners, planners')
    ensures PlanningWork(planners', proposals) == PlanningWork(planners, proposals)
  {
    assert PlannerWeights(planners') == PlannerWeights(planners);
  }
}

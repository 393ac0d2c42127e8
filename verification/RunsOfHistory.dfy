/** What every run keeps about the event log, the milestones, the reviews and the operational snapshots. */
module RunsOfHistory {
  import opened Records
  import Sorting
  import opened OperationsService
  import opened SystemRuns

  // ---- The invariant --------------------------------------------------------

  /** The activation record is what the event log stands for. */
  ghost predicate MilestonesOk(s: Sys) {
    forall t :: MilestonesAt(s.st.activation, t) == MilestonesOf(Rows(s.st.events, t))
  }

  /** Every stored review has its event, but for the calls between their two writes. */
  ghost predicate ReviewsOk(s: Sys) {
    forall t :: |Rows(s.st.reviews, t)| == |Times(Rows(s.st.events, t), REVIEW_EVENT)| + s.reviewing[t]
  }

  /** The stored snapshots are what the whole history of a tenant leaves. */
  ghost predicate SnapshotsOk(s: Sys) {
    forall t :: Rows(s.st.opSnapshots, t) == StoredAfter(Rows(s.written, t))
  }

  ghost predicate HistoryOk(s: Sys) {
    MilestonesOk(s) && ReviewsOk(s) && SnapshotsOk(s)
  }

  ghost predicate MilestonesEvolve(s: Sys, s': Sys) {
    forall t :: MilestonesStay(MilestonesAt(s.st.activation, t), MilestonesAt(s'.st.activation, t))
  }

  // ---- Steps ----------------------------------------------------------------

  predicate TouchesHistory(step: Step) {
    step.WriteReview? || step.LogReview? || step.LogEvent? || step.WriteSnapshot?
  }

  lemma HistoryUntouched(c: Config, s: Sys, step: Step, s': Sys)
    requires Next(c, s, step, s') && !TouchesHistory(step)
    ensures s'.st.events == s.st.events && s'.st.activation == s.st.activation && s'.st.reviews == s.st.reviews
    ensures s'.st.opSnapshots == s.st.opSnapshots && s'.reviewing == s.reviewing && s'.written == s.written
  {
  }

  /** One logged event: the record follows the log, and what it held stays. */
  lemma EventKeepsMilestones(s: Sys, s': Sys, t: string, event: OperationalEvent)
    requires MilestonesOk(s) && EventStep(s.st, s'.st, t, event)
    ensures MilestonesOk(s') && MilestonesEvolve(s, s')
  {
    hide Reached, MilestonesOf, Rows, MilestonesAt;
    RecordKeepsMilestones(Rows(s.st.events, t), event);
    RecordKeepsReached(MilestonesAt(s.st.activation, t), event.typ, event.createdAt);
  }

  lemma EventKeepsTimes(s: Sys, s': Sys, t: string, event: OperationalEvent, u: string)
    requires EventStep(s.st, s'.st, t, event)
    ensures |Times(Rows(s'.st.events, u), REVIEW_EVENT)| ==
            |Times(Rows(s.st.events, u), REVIEW_EVENT)| + Sorting.One(u == t && event.typ == REVIEW_EVENT)
  {
  }

  lemma WriteReviewKeeps(c: Config, s: Sys, s': Sys, t: string, review: ReviewSnapshot)
    requires HistoryOk(s) && Next(c, s, WriteReview(t, review), s')
    ensures HistoryOk(s') && MilestonesEvolve(s, s')
  {
    hide Times, MilestonesOf, Rows, StoredAfter;
  }

  lemma LogReviewKeeps(c: Config, s: Sys, s': Sys, t: string, message: string, now: Instant)
    requires HistoryOk(s) && Next(c, s, LogReview(t, message, now), s')
    ensures HistoryOk(s') && MilestonesEvolve(s, s')
  {
    hide Times, MilestonesOf, MilestonesOk, MilestonesEvolve, Rows, StoredAfter, Reached, MilestonesAt;
    var event := OperationalEvent(t, REVIEW_EVENT, message, "", now);
    EventKeepsMilestones(s, s', t, event);
    forall u
      ensures |Rows(s'.st.reviews, u)| == |Times(Rows(s'.st.events, u), REVIEW_EVENT)| + s'.reviewing[u]
    {
      EventKeepsTimes(s, s', t, event, u);
    }
  }

  lemma LogEventKeeps(c: Config, s: Sys, s': Sys, t: string, event: OperationalEvent)
    requires HistoryOk(s) && Next(c, s, LogEvent(t, event), s')
    ensures HistoryOk(s') && MilestonesEvolve(s, s')
  {
    hide Times, MilestonesOf, MilestonesOk, MilestonesEvolve, Rows, StoredAfter, Reached, MilestonesAt;
    EventKeepsMilestones(s, s', t, event);
    forall u
      ensures |Rows(s'.st.reviews, u)| == |Times(Rows(s'.st.events, u), REVIEW_EVENT)| + s'.reviewing[u]
    {
      EventKeepsTimes(s, s', t, event, u);
    }
  }

  lemma WriteSnapshotKeeps(c: Config, s: Sys, s': Sys, t: string, snap: OperationalSnapshot)
    requires HistoryOk(s) && Next(c, s, WriteSnapshot(t, snap), s')
    ensures HistoryOk(s') && MilestonesEvolve(s, s')
  {
    hide Times, MilestonesOf, WithSnapshot;
    var history := Rows(s.written, t);
    assert (history + [snap])[..|history|] == history;
  }

  lemma NoMilestoneMoves(s: Sys, s': Sys)
    requires s'.st.activation == s.st.activation
    ensures MilestonesEvolve(s, s')
  {
  }

  /** Every step keeps the invariant, and no milestone that is set changes. */
  lemma HistoryKept(c: Config, s: Sys, step: Step, s': Sys)
    requires HistoryOk(s) && Next(c, s, step, s')
    ensures HistoryOk(s') && MilestonesEvolve(s, s')
  {
    hide Next, MilestonesEvolve, HistoryOk;
    if step.WriteReview? {
      WriteReviewKeeps(c, s, s', step.t, step.review);
    } else if step.LogReview? {
      LogReviewKeeps(c, s, s', step.t, step.message, step.now);
    } else if step.LogEvent? {
      LogEventKeeps(c, s, s', step.t, step.event);
    } else if step.WriteSnapshot? {
      WriteSnapshotKeeps(c, s, s', step.t, step.snap);
    } else {
      HistoryUntouched(c, s, step, s');
      NoMilestoneMoves(s, s');
      SameHistory(s, s');
    }
  }

  lemma SameHistory(s: Sys, s': Sys)
    requires HistoryOk(s) && s'.st.events == s.st.events && s'.st.activation == s.st.activation
             && s'.st.reviews == s.st.reviews
    requires s'.st.opSnapshots == s.st.opSnapshots && s'.reviewing == s.reviewing && s'.written == s.written
    ensures HistoryOk(s')
  {
    hide Times, MilestonesOf, StoredAfter, Rows, MilestonesAt;
  }

  lemma HistoryAtStart()
    ensures HistoryOk(START)
  {
  }

  // ---- What it means --------------------------------------------------------

  /** When no review call is between its writes: comparison exports are ready exactly when the two latest reviews
      can be compared and exactly when the second review is on record, and then the stage is at least "recurring". */
  lemma ReadyMeansRecurring(s: Sys, t: string, now: Instant, health: int, totalEvidence: nat, owners: nat,
          proofpacks: nat, streak: nat)
    requires HistoryOk(s) && s.reviewing[t] == 0
    ensures var reviews, ms := Rows(s.st.reviews, t), MilestonesAt(s.st.activation, t);
            var ready := PilotRitualOf(reviews, now).comparisonExportReady;
            && (ready <==> CompareReviews(reviews, 0, 1).Some?)
            && (ready <==> ms.secondWeeklyReviewAt.Some?)
            && (ready ==> DeriveStage(health, totalEvidence, owners, proofpacks, streak, ms) in {"recurring",
              "expansion-ready"})
  {
  }
}

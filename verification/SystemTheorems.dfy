/** What holds in every state of every run, and between any two of them. */
module SystemTheorems {
  import opened Records
  import Sorting
  import Evidence
  import GraphModel
  import opened EvidenceService
  import opened OperationsService
  import opened AdjudicationService
  import opened SystemRuns
  import opened RunsOfEvidence
  import opened RunsOfHistory
  import opened RunsOfIssues
  import opened RunsOfMarks

  ghost predicate Inv(c: Config, s: Sys) {
    EvidenceOk(c, s) && HistoryOk(s) && AllIssuesOk(s) && AllMarksOk(s)
  }

  ghost predicate Evolves(s: Sys, s': Sys) {
    EvidenceEvolves(s, s') && MilestonesEvolve(s, s') && AllIssuesEvolve(s, s')
  }

  lemma StepKeeps(c: Config, s: Sys, step: Step, s': Sys)
    requires Inv(c, s) && Next(c, s, step, s')
    ensures Inv(c, s') && Evolves(s, s')
  {
    hide Next, EvidenceOk, HistoryOk, AllIssuesOk, AllMarksOk, EvidenceEvolves, MilestonesEvolve, AllIssuesEvolve;
    EvidenceKept(c, s, step, s');
    HistoryKept(c, s, step, s');
    IssuesKept(c, s, step, s');
    MarksKept(c, s, step, s');
  }

  /** Main result: whatever the order of the steps, the invariant holds in every state that is reached. */
  lemma {:induction false} RunKeeps(c: Config, trace: seq<Sys>, steps: seq<Step>, k: nat)
    requires IsRun(c, trace, steps) && k <= |steps|
    ensures Inv(c, trace[k])
  {
    hide Next, EvidenceOk, HistoryOk, AllIssuesOk, AllMarksOk, Evolves;
    if k == 0 {
      EvidenceAtStart(c);
      HistoryAtStart();
      IssuesAtStart();
      MarksAtStart();
    } else {
      RunKeeps(c, trace, steps, k - 1);
      StepKeeps(c, trace[k - 1], steps[k - 1], trace[k]);
    }
  }

  lemma EvolvesOn(a: Sys, b: Sys, c: Sys)
    requires Evolves(a, b) && Evolves(b, c)
    ensures Evolves(a, c)
  {
    hide RowsEvolve, MilestonesStay, IssuesEvolve;
    forall t
      ensures RowsEvolve(Rows(a.st.evidence, t), Rows(c.st.evidence, t))
              && IssuesEvolve(Rows(a.st.issues, t), Rows(c.st.issues, t))
      ensures MilestonesStay(MilestonesAt(a.st.activation, t), MilestonesAt(c.st.activation, t))
    {
      RowsEvolveOn(Rows(a.st.evidence, t), Rows(b.st.evidence, t), Rows(c.st.evidence, t));
      IssuesEvolveOn(Rows(a.st.issues, t), Rows(b.st.issues, t), Rows(c.st.issues, t));
      StayOn(MilestonesAt(a.st.activation, t), MilestonesAt(b.st.activation, t), MilestonesAt(c.st.activation, t));
    }
  }

  lemma StayOn(a: Milestones, b: Milestones, c: Milestones)
    requires MilestonesStay(a, b) && MilestonesStay(b, c)
    ensures MilestonesStay(a, c)
  {
  }

  lemma EvolvesFromItself(s: Sys)
    ensures Evolves(s, s)
  {
  }

  /** Main result: between any two moments of a run an item keeps its identifier and creation time, a milestone that
      is set keeps its time, and a resolved issue keeps everything. */
  lemma {:induction false} RunEvolves(c: Config, trace: seq<Sys>, steps: seq<Step>, j: nat, k: nat)
    requires IsRun(c, trace, steps) && j <= k <= |steps|
    ensures Evolves(trace[j], trace[k])
    decreases k
  {
    hide Next, Inv, Evolves;
    if j == k {
      EvolvesFromItself(trace[j]);
    } else {
      RunEvolves(c, trace, steps, j, k - 1);
      RunKeeps(c, trace, steps, k - 1);
      StepKeeps(c, trace[k - 1], steps[k - 1], trace[k]);
      EvolvesOn(trace[j], trace[k - 1], trace[k]);
    }
  }

  // ---- Evidence -------------------------------------------------------------

  /** Every stored item is valid, normal and its tenant's own, and the limit holds. */
  lemma StoredItemsAreValid(c: Config, trace: seq<Sys>, steps: seq<Step>, k: nat, t: string)
    requires IsRun(c, trace, steps) && k <= |steps|
    ensures var rows := Rows(trace[k].st.evidence, t);
            && (forall i :: 0 <= i < |rows| ==>
              Evidence.Validate(rows[i]) == None && rows[i].tenantID == t && Evidence.NormalItem(rows[i], c.fold))
            && |rows| <= (if c.limit > 0 then c.limit else 0)
  {
    hide Next, HistoryOk, AllIssuesOk, AllMarksOk, DistinctItems, Owned, FilesHeld, ManifestsHeld, Evidence.Validate,
      Evidence.NormalItem, Rows, ExportsHeld;
    RunKeeps(c, trace, steps, k);
    var s := trace[k];
    assert TenantOk(c, s.owner, t, Rows(s.st.evidence, t), Rows(s.st.files, t), Rows(s.st.proofpacks, t));
  }

  /** An identifier belongs to one item of one tenant. */
  lemma ItemIDsAreUnique(c: Config, trace: seq<Sys>, steps: seq<Step>, k: nat, t: string, i: nat, u: string, j: nat)
    requires IsRun(c, trace, steps) && k <= |steps|
    requires i < |Rows(trace[k].st.evidence, t)| && j < |Rows(trace[k].st.evidence, u)|
    requires Rows(trace[k].st.evidence, t)[i].id == Rows(trace[k].st.evidence, u)[j].id
    ensures t == u && i == j
  {
    hide Next, HistoryOk, AllIssuesOk, AllMarksOk, RowsOk, FilesHeld, ManifestsHeld, Rows, ExportsHeld;
    RunKeeps(c, trace, steps, k);
    var s := trace[k];
    assert TenantOk(c, s.owner, t, Rows(s.st.evidence, t), Rows(s.st.files, t), Rows(s.st.proofpacks, t));
    assert TenantOk(c, s.owner, u, Rows(s.st.evidence, u), Rows(s.st.files, u), Rows(s.st.proofpacks, u));
  }

  lemma HeldIsKnown(rows: seq<Item>, ids: seq<string>)
    requires AllHeld(rows, ids)
    ensures forall k :: 0 <= k < |ids| ==> ids[k] in GraphModel.KnownIDs(rows)
  {
  }

  /** Every file and every manifest entry names an item of its tenant, then and ever after; so a graph that reads
      the proofpacks no later than the items drops no manifest entry. */
  lemma ManifestsAreKnown(c: Config, trace: seq<Sys>, steps: seq<Step>, j: nat, k: nat, t: string)
    requires IsRun(c, trace, steps) && j <= k <= |steps|
    ensures var rows, files, packs := Rows(trace[k].st.evidence, t), Rows(trace[j].st.files, t),
            Rows(trace[j].st.proofpacks, t);
            && (forall f :: 0 <= f < |files| ==> Has(rows, files[f].evidenceID))
            && (forall p, i :: 0 <= p < |packs| && 0 <= i < |packs[p].evidenceIDs| ==>
              packs[p].evidenceIDs[i] in GraphModel.KnownIDs(rows))
  {
    hide Next, HistoryOk, AllIssuesOk, AllMarksOk, AllIssuesEvolve, MilestonesEvolve, RowsOk, DistinctItems, Owned,
      Has, Rows, ExportsHeld, GraphModel.KnownIDs, AllHeld, RowsEvolve;
    RunKeeps(c, trace, steps, j);
    RunEvolves(c, trace, steps, j, k);
    var s, s' := trace[j], trace[k];
    var rows, packs := Rows(s'.st.evidence, t), Rows(s.st.proofpacks, t);
    assert TenantOk(c, s.owner, t, Rows(s.st.evidence, t), Rows(s.st.files, t), packs);
    RefsHeldLater(Rows(s.st.evidence, t), rows, Rows(s.st.files, t), packs);
    forall p, i | 0 <= p < |packs| && 0 <= i < |packs[p].evidenceIDs|
      ensures packs[p].evidenceIDs[i] in GraphModel.KnownIDs(rows)
    {
      HeldIsKnown(rows, packs[p].evidenceIDs);
    }
  }

  // ---- History --------------------------------------------------------------

  /** The activation record is always the one the event log stands for; and when no review call is between its two
      writes, comparison exports are ready exactly when the latest reviews can be compared and exactly when the
      second review is on record, which forces the stage. */
  lemma RecordFollowsLog(c: Config, trace: seq<Sys>, steps: seq<Step>, k: nat, t: string, now: Instant)
    requires IsRun(c, trace, steps) && k <= |steps|
    ensures var st := trace[k].st;
            var reviews, ms := Rows(st.reviews, t), MilestonesAt(st.activation, t);
            && ms == MilestonesOf(Rows(st.events, t))
            && |reviews| == |Times(Rows(st.events, t), REVIEW_EVENT)| + trace[k].reviewing[t]
            && (trace[k].reviewing[t] == 0 ==>
                  var ready := PilotRitualOf(reviews, now).comparisonExportReady;
                  && (ready <==> CompareReviews(reviews, 0, 1).Some?)
                  && (ready <==> ms.secondWeeklyReviewAt.Some?)
                  && (ready ==> forall h: int, n: nat, o: nat, p: nat, r: nat ::
                        DeriveStage(h, n, o, p, r, ms) in {"recurring", "expansion-ready"}))
  {
    hide Next, EvidenceOk, AllIssuesOk, AllMarksOk, Rows, MilestonesAt, MilestonesOf, Times, StoredAfter,
      PilotRitualOf, CompareReviews, DeriveStage;
    RunKeeps(c, trace, steps, k);
    var s := trace[k];
    if s.reviewing[t] == 0 {
      forall h: int, n: nat, o: nat, p: nat, r: nat
        ensures PilotRitualOf(Rows(s.st.reviews, t), now).comparisonExportReady ==>
                DeriveStage(h, n, o, p, r, MilestonesAt(s.st.activation, t)) in {"recurring", "expansion-ready"}
      {
        ReadyMeansRecurring(s, t, now, h, n, o, p, r);
      }
      ReadyMeansRecurring(s, t, now, 0, 0, 0, 0, 0);
    }
  }

  /** The stored snapshots are at most ninety; with a clock that never goes back their days strictly decrease, each is
      the last of its day, and a missing day is older than all ninety. */
  lemma SnapshotsAreLastOfDays(c: Config, trace: seq<Sys>, steps: seq<Step>, k: nat, t: string)
    requires IsRun(c, trace, steps) && k <= |steps|
    ensures var stored, history := Rows(trace[k].st.opSnapshots, t), Rows(trace[k].written, t);
            && stored == Sorting.AtMost(LastOfDays(history), MAX_SNAPSHOTS)
            && (ClockForward(history) ==>
                  && DatesDecrease(stored)
                  && (forall m :: 0 <= m < |stored| ==> LastOfItsDay(history, stored[m]))
                  && (forall i :: 0 <= i < |history| ==>
                        HasDay(stored, history[i].date)
                        || (|stored| == MAX_SNAPSHOTS && forall m :: 0 <= m < |stored| ==>
                          stored[m].date > history[i].date)))
  {
    hide Next, EvidenceOk, AllIssuesOk, AllMarksOk, Rows, MilestonesOk, ReviewsOk, LastOfItsDay, HasDay, LastOfDays,
      StoredAfter, DatesDecrease;
    RunKeeps(c, trace, steps, k);
    var history := Rows(trace[k].written, t);
    assert Rows(trace[k].st.opSnapshots, t) == StoredAfter(history);
    StoredIsLastOfDays(history);
    if ClockForward(history) {
      StoredHistory(history);
    }
  }

  // ---- Issues ---------------------------------------------------------------

  /** At every moment each tenant has at most one open issue of a kind, and resolved issues and events correspond one
      to one; and once resolved, an issue is the same at every later moment. */
  lemma IssuesStayResolved(c: Config, trace: seq<Sys>, steps: seq<Step>, j: nat, k: nat, t: string)
    requires IsRun(c, trace, steps) && j <= k <= |steps|
    ensures var before, issues, events := Rows(trace[j].st.issues, t), Rows(trace[k].st.issues, t),
            Rows(trace[k].st.adjudications, t);
            OneOpen(issues) && DistinctIssues(issues) && Corresponds(issues, events) && ResolvedStay(before, issues)
  {
    hide Next, EvidenceOk, HistoryOk, AllIssuesOk, AllMarksOk, EvidenceEvolves, MilestonesEvolve, AllIssuesEvolve,
      Rows, OneOpen, DistinctIssues, Corresponds, ResolvedStay;
    RunKeeps(c, trace, steps, k);
    RunEvolves(c, trace, steps, j, k);
    IssuesLater(trace[j], trace[k], t);
  }

  lemma IssuesLater(s: Sys, s': Sys, t: string)
    requires AllIssuesOk(s') && AllIssuesEvolve(s, s')
    ensures var before, issues, events := Rows(s.st.issues, t), Rows(s'.st.issues, t), Rows(s'.st.adjudications, t);
            OneOpen(issues) && DistinctIssues(issues) && Corresponds(issues, events) && ResolvedStay(before, issues)
  {
    hide Rows, OneOpen, DistinctIssues, Corresponds, IssuesDrawn, IssuesEvolve, ResolvedStay;
    EvolvedStay(Rows(s.st.issues, t), Rows(s'.st.issues, t));
    assert IssuesOk(t, Rows(s'.st.issues, t), Rows(s'.st.adjudications, t));
  }

  lemma EvolvedStay(before: seq<Issue>, after: seq<Issue>)
    ensures IssuesEvolve(before, after) ==> ResolvedStay(before, after)
  {
  }

  // ---- Payments -------------------------------------------------------------

  /** A payment event is logged at most once, and exactly once when it was seen and its call is over. */
  lemma PaymentsLoggedOnce(c: Config, trace: seq<Sys>, steps: seq<Step>, k: nat, eventID: string)
    requires IsRun(c, trace, steps) && k <= |steps|
    ensures var logged := Sorting.Count(trace[k].st.auditLogs, IsPayment(eventID));
            && logged <= 1
            && (trace[k].processing[eventID] == 0 ==> logged == Sorting.One(eventID in trace[k].st.stripeEvents))
  {
    hide Next, EvidenceOk, HistoryOk, AllIssuesOk, MarksOk, AttemptsLogged, IsPayment, Sorting.Count;
    RunKeeps(c, trace, steps, k);
    assert Excess(trace[k], eventID) == 0;
  }
}

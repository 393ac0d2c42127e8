/** What the promises of the services become when the store opens on parts of different moments of a run. */
module SystemRecovery {
  import opened Records
  import Sorting
  import Evidence
  import GraphModel
  import Store
  import EvidenceService
  import opened OperationsService
  import opened AdjudicationService
  import opened SystemRuns
  import RunsOfHistory
  import RunsOfIssues
  import RunsOfMarks
  import RunsOfManifests
  import opened SystemTheorems
  import FileStore
  import opened SystemRestart

  function StatesOf(trace: seq<Sys>): seq<Store.State> {
    seq(|trace|, i requires 0 <= i < |trace| => trace[i].st)
  }

  lemma PartMoment(trace: seq<Sys>, m: Store.State, k: Kind) returns (i: nat)
    requires Patched(m, StatesOf(trace))
    ensures i < |trace| && PartAt(m, k) == PartAt(trace[i].st, k)
  {
    hide PartAt;
    assert PartFromSome(k, m, StatesOf(trace));
    i :| 0 <= i < |trace| && PartAt(m, k) == PartAt(StatesOf(trace)[i], k);
  }

  // ---- What survives: facts about one part ----------------------------------

  /** Items are still valid, of their tenant, normal and within the limit. */
  lemma RestartKeepsItems(c: Config, trace: seq<Sys>, steps: seq<Step>, m: Store.State, t: string)
    requires IsRun(c, trace, steps) && Patched(m, StatesOf(trace))
    ensures var rows := Rows(m.evidence, t);
            && (forall i :: 0 <= i < |rows| ==>
              Evidence.Validate(rows[i]) == None && rows[i].tenantID == t && Evidence.NormalItem(rows[i], c.fold))
            && |rows| <= (if c.limit > 0 then c.limit else 0)
  {
    hide Next, Evidence.Validate, Evidence.NormalItem, Rows, Patched;
    var i := PartMoment(trace, m, EVIDENCE);
    StoredItemsAreValid(c, trace, steps, i, t);
  }

  /** An identifier is still that of one item of one tenant. */
  lemma RestartKeepsItemIDs(c: Config, trace: seq<Sys>, steps: seq<Step>, m: Store.State, t: string, i: nat, u: string,
          j: nat)
    requires IsRun(c, trace, steps) && Patched(m, StatesOf(trace))
    requires i < |Rows(m.evidence, t)| && j < |Rows(m.evidence, u)|
             && Rows(m.evidence, t)[i].id == Rows(m.evidence, u)[j].id
    ensures t == u && i == j
  {
    hide Next, Rows, Patched;
    var k := PartMoment(trace, m, EVIDENCE);
    ItemIDsAreUnique(c, trace, steps, k, t, i, u, j);
  }

  /** The stored snapshots are still the newest ninety last-of-day ones of some moment. */
  lemma RestartKeepsSnapshots(c: Config, trace: seq<Sys>, steps: seq<Step>, m: Store.State, t: string) returns (k: nat)
    requires IsRun(c, trace, steps) && Patched(m, StatesOf(trace))
    ensures k <= |steps| && Rows(m.opSnapshots, t)
            == Sorting.AtMost(LastOfDays(Rows(trace[k].written, t)), MAX_SNAPSHOTS)
  {
    hide Next, Rows, LastOfDays, Patched;
    k := PartMoment(trace, m, SNAPSHOTS);
    SnapshotsAreLastOfDays(c, trace, steps, k, t);
  }

  /** There is still at most one open issue of a kind. */
  lemma RestartKeepsOneOpen(c: Config, trace: seq<Sys>, steps: seq<Step>, m: Store.State, t: string)
    requires IsRun(c, trace, steps) && Patched(m, StatesOf(trace))
    ensures OneOpen(Rows(m.issues, t)) && DistinctIssues(Rows(m.issues, t))
  {
    hide Next, Rows, OneOpen, DistinctIssues, Corresponds, Patched;
    var k := PartMoment(trace, m, ISSUES);
    IssuesStayResolved(c, trace, steps, k, k, t);
  }

  /** A payment event is still logged at most once. */
  lemma RestartKeepsPayments(c: Config, trace: seq<Sys>, steps: seq<Step>, m: Store.State, eventID: string)
    requires IsRun(c, trace, steps) && Patched(m, StatesOf(trace))
    ensures Sorting.Count(m.auditLogs, RunsOfMarks.IsPayment(eventID)) <= 1
  {
    hide Next, Sorting.Count, RunsOfMarks.IsPayment, Patched;
    var k := PartMoment(trace, m, AUDIT);
    PaymentsLoggedOnce(c, trace, steps, k, eventID);
  }

  // ---- What need not survive: facts about two parts -------------------------

  /** A manifest names items, all of it, exactly when it is no longer than the list of items that is found with it. */
  lemma RestartKeepsManifests(c: Config, trace: seq<Sys>, steps: seq<Step>, m: Store.State, t: string, p: nat)
    requires IsRun(c, trace, steps) && Patched(m, StatesOf(trace)) && p < |Rows(m.proofpacks, t)|
    ensures var ids, rows := Rows(m.proofpacks, t)[p].evidenceIDs, Rows(m.evidence, t);
            && (forall k :: 0 <= k < |ids| ==> (ids[k] in GraphModel.KnownIDs(rows) <==> |ids| - k <= |rows|))
            && ((forall k :: 0 <= k < |ids| ==> ids[k] in GraphModel.KnownIDs(rows)) <==> |ids| <= |rows|)
  {
    hide Next, Rows, GraphModel.KnownIDs, Patched;
    var a := PartMoment(trace, m, EVIDENCE);
    var b := PartMoment(trace, m, PROOFPACKS);
    var ids, rows := Rows(m.proofpacks, t)[p].evidenceIDs, Rows(m.evidence, t);
    forall k | 0 <= k < |ids| ensures ids[k] in GraphModel.KnownIDs(rows) <==> |ids| - k <= |rows| {
      RunsOfManifests.EntryIsKnownIff(c, trace, steps, a, b, t, p, k);
    }
    if ids != [] {
      assert ids[0] in GraphModel.KnownIDs(rows) <==> |ids| <= |rows|;
    }
  }

  /** The step logs an event that sets a milestone of the tenant. */
  predicate SetsMilestone(s: Sys, step: Step, t: string) {
    var ms := MilestonesAt(s.st.activation, t);
    match step
    case LogReview(u, _, now) => u == t && Reached(ms, REVIEW_EVENT, now) != ms
    case LogEvent(u, event) => u == t && Reached(ms, event.typ, event.createdAt) != ms
    case _ => false
  }

  lemma MilestonesMove(c: Config, s: Sys, step: Step, s': Sys, t: string)
    requires Next(c, s, step, s')
    ensures MilestonesAt(s'.st.activation, t) != MilestonesAt(s.st.activation, t) <==> SetsMilestone(s, step, t)
  {
    hide Reached, MilestonesAt;
    if !RunsOfHistory.TouchesHistory(step) {
      hide Next;
      RunsOfHistory.HistoryUntouched(c, s, step, s');
    }
  }

  /** Some step between the two moments, whichever is later, sets a milestone of the tenant. */
  ghost predicate SomeSet(trace: seq<Sys>, steps: seq<Step>, i: nat, j: nat, t: string)
    requires i <= |steps| < |trace| && j <= |steps|
  {
    exists k :: 0 <= k < |steps| && (i <= k < j || j <= k < i) && SetsMilestone(trace[k], steps[k], t)
  }

  lemma {:induction false} MilestonesRest(c: Config, trace: seq<Sys>, steps: seq<Step>, i: nat, j: nat, t: string)
    requires AreSteps(c, trace, steps) && i <= j <= |steps|
    requires forall k :: i <= k < j ==> !SetsMilestone(trace[k], steps[k], t)
    ensures MilestonesAt(trace[j].st.activation, t) == MilestonesAt(trace[i].st.activation, t)
    decreases j
  {
    hide Next, SetsMilestone, MilestonesAt;
    if i < j {
      MilestonesRest(c, trace, steps, i, j - 1, t);
      MilestonesMove(c, trace[j - 1], steps[j - 1], trace[j], t);
    }
  }

  lemma MilestonesAdvance(c: Config, trace: seq<Sys>, steps: seq<Step>, j: nat, k: nat, t: string)
    requires IsRun(c, trace, steps) && j <= k <= |steps|
    ensures MilestonesStay(MilestonesAt(trace[j].st.activation, t), MilestonesAt(trace[k].st.activation, t))
  {
    hide Next, MilestonesStay, MilestonesAt;
    RunEvolves(c, trace, steps, j, k);
  }

  lemma StayBothWays(a: Milestones, b: Milestones)
    requires MilestonesStay(a, b) && MilestonesStay(b, a)
    ensures a == b
  {
  }

  /** Between two moments the milestones are the same exactly when no step in between sets one. */
  lemma SameIffNoneSet(c: Config, trace: seq<Sys>, steps: seq<Step>, i: nat, j: nat, t: string)
    requires IsRun(c, trace, steps) && i <= j <= |steps|
    ensures MilestonesAt(trace[i].st.activation, t) == MilestonesAt(trace[j].st.activation, t) <==>
            !SomeSet(trace, steps, i, j, t)
  {
    hide Next, SetsMilestone, MilestonesStay, MilestonesAt;
    if !SomeSet(trace, steps, i, j, t) {
      MilestonesRest(c, trace, steps, i, j, t);
    } else {
      var k :| 0 <= k < |steps| && i <= k < j && SetsMilestone(trace[k], steps[k], t);
      MilestonesMove(c, trace[k], steps[k], trace[k + 1], t);
      MilestonesAdvance(c, trace, steps, i, k, t);
      MilestonesAdvance(c, trace, steps, k, k + 1, t);
      MilestonesAdvance(c, trace, steps, k + 1, j, t);
      if MilestonesAt(trace[i].st.activation, t) == MilestonesAt(trace[j].st.activation, t) {
        StayOn(MilestonesAt(trace[k + 1].st.activation, t), MilestonesAt(trace[j].st.activation, t),
               MilestonesAt(trace[k].st.activation, t));
        StayBothWays(MilestonesAt(trace[k].st.activation, t), MilestonesAt(trace[k + 1].st.activation, t));
      }
    }
  }

  /** The record follows the log exactly when no milestone of the tenant was set between the moment of the log that is
      found and the moment of the record, whichever is later. */
  lemma RestartKeepsMilestones(c: Config, trace: seq<Sys>, steps: seq<Step>, m: Store.State, t: string, i: nat, j: nat)
    requires IsRun(c, trace, steps) && i <= |steps| && j <= |steps|
    requires m.events == trace[i].st.events && m.activation == trace[j].st.activation
    ensures MilestonesAt(m.activation, t) == MilestonesOf(Rows(m.events, t)) <==> !SomeSet(trace, steps, i, j, t)
  {
    hide Next, SetsMilestone, MilestonesAt, MilestonesOf, Rows;
    RecordFollowsLog(c, trace, steps, i, t, 0);
    if i <= j {
      SameIffNoneSet(c, trace, steps, i, j, t);
    } else {
      SameIffNoneSet(c, trace, steps, j, i, t);
    }
  }

  /** Resolved issues and events correspond exactly when there are as many of these as of those. */
  lemma RestartKeepsResolutions(c: Config, trace: seq<Sys>, steps: seq<Step>, m: Store.State, t: string)
    requires IsRun(c, trace, steps) && Patched(m, StatesOf(trace))
    ensures Corresponds(Rows(m.issues, t), Rows(m.adjudications, t)) <==>
            |ResolvedIDs(Rows(m.issues, t))| == |Rows(m.adjudications, t)|
  {
    hide Next, Rows, OneOpen, DistinctIssues, Corresponds, ResolvedIDs, Extends, Patched;
    var i := PartMoment(trace, m, ISSUES);
    var j := PartMoment(trace, m, ADJUDICATIONS);
    IssuesStayResolved(c, trace, steps, i, i, t);
    if i <= j {
      RunsOfIssues.EventsExtend(c, trace, steps, i, j, t);
    } else {
      RunsOfIssues.EventsExtend(c, trace, steps, j, i, t);
    }
    CorrespondIffCounted(Rows(m.issues, t), Rows(trace[i].st.adjudications, t), Rows(m.adjudications, t));
  }

  // ---- One crash ------------------------------------------------------------

  /** A crash while an event is saved keeps milestones and log in agreement exactly when both or neither landed, or the
      event sets no milestone. */
  lemma MixedMilestones(s: Sys, s': Sys, t: string, event: OperationalEvent, landed: set<FileStore.Name>)
    requires RunsOfHistory.MilestonesOk(s) && EventStep(s.st, s'.st, t, event)
    ensures var m, ms := MixOf(s.st, s'.st, landed), MilestonesAt(s.st.activation, t);
            MilestonesAt(m.activation, t) == MilestonesOf(Rows(m.events, t)) <==>
            || (NameOf(EVENTS) in landed <==> NameOf(ACTIVATION) in landed)
            || Reached(ms, event.typ, event.createdAt) == ms
  {
    hide Reached, MilestonesOf, Rows, MilestonesAt, NameOf;
    RecordKeepsMilestones(Rows(s.st.events, t), event);
  }

  /** A crash while a resolution is saved keeps issues and events in correspondence exactly when both or neither
      landed. */
  lemma MixedResolution(before: Store.State, after: Store.State, t: string, issueID: string, operator: string,
          reason: string, now: Instant, newID: string, landed: set<FileStore.Name>)
    requires IssuesOk(t, Rows(before.issues, t), Rows(before.adjudications, t))
    requires ResolveStep(before, after, t, issueID, operator, reason, now, newID)
    requires ResolveOutcome(Rows(before.issues, t), issueID) == Resolved
    ensures var m := MixOf(before, after, landed);
            Corresponds(Rows(m.issues, t), Rows(m.adjudications, t)) <==>
            (NameOf(ISSUES) in landed <==> NameOf(ADJUDICATIONS) in landed)
  {
    hide Corresponds, OneOpen, DistinctIssues, Rows, NameOf;
    var issues, events := Rows(before.issues, t), Rows(before.adjudications, t);
    ResolveKeepsIssues(t, issues, events, issueID, operator, reason, now, newID);
    ResolvedAlone(t, issues, events, IssueIndex(issues, issueID),
      Adjudication(newID, t, issueID, "resolved", operator, reason, now));
  }

  /** The resolved issue without its event, and the event without its issue. */
  lemma ResolvedAlone(t: string, issues: seq<Issue>, events: seq<Adjudication>, i: nat, event: Adjudication)
    requires IssuesOk(t, issues, events) && i < |issues| && issues[i].resolvedAt.None? && event.issueID == issues[i].id
    ensures !Corresponds(issues[i := Closed(issues[i], event)], events)
    ensures !Corresponds(issues, [event] + events)
  {
    hide OneOpen, IssuesEvolve;
    forall k | 0 <= k < |events| ensures events[k].issueID != issues[i].id {
      assert HasIssue(issues, events[k]);
      var j :| 0 <= j < |issues| && Documents(events[k], issues[j]);
      assert j != i;
    }
    var closed, more := issues[i := Closed(issues[i], event)], [event] + events;
    assert !HasEvent(events, closed[i]);
    assert more[0] == event && !HasIssue(issues, more[0]);
  }

  // ---- The store and the services together ----------------------------------

  /** What holds of every state that a restart finds. */
  ghost predicate Survives(c: Config, m: Store.State) {
    && (forall t :: EvidenceService.RowsOk(t, Rows(m.evidence, t), c.limit, c.fold)
          && EvidenceService.DistinctItems(Rows(m.evidence, t)))
    && (forall t :: OneOpen(Rows(m.issues, t)) && DistinctIssues(Rows(m.issues, t)))
    && (forall t :: |Rows(m.opSnapshots, t)| <= MAX_SNAPSHOTS)
    && (forall eventID :: Sorting.Count(m.auditLogs, RunsOfMarks.IsPayment(eventID)) <= 1)
  }

  lemma PatchedSurvives(c: Config, trace: seq<Sys>, steps: seq<Step>, m: Store.State)
    requires IsRun(c, trace, steps) && Patched(m, StatesOf(trace))
    ensures Survives(c, m)
  {
    hide Next, Rows, Patched, OneOpen, DistinctIssues, Sorting.Count, RunsOfMarks.IsPayment, Evidence.Validate,
      Evidence.NormalItem, LastOfDays;
    forall t
      ensures EvidenceService.RowsOk(t, Rows(m.evidence, t), c.limit, c.fold)
      ensures EvidenceService.DistinctItems(Rows(m.evidence, t))
      ensures OneOpen(Rows(m.issues, t)) && DistinctIssues(Rows(m.issues, t))
      ensures |Rows(m.opSnapshots, t)| <= MAX_SNAPSHOTS
    {
      RestartKeepsItems(c, trace, steps, m, t);
      RestartKeepsOneOpen(c, trace, steps, m, t);
      var k := RestartKeepsSnapshots(c, trace, steps, m, t);
      var rows := Rows(m.evidence, t);
      forall i, j | 0 <= i < j < |rows| ensures rows[i].id != rows[j].id {
        if rows[i].id == rows[j].id {
          RestartKeepsItemIDs(c, trace, steps, m, t, i, t, j);
        }
      }
    }
    forall eventID ensures Sorting.Count(m.auditLogs, RunsOfMarks.IsPayment(eventID)) <= 1 {
      RestartKeepsPayments(c, trace, steps, m, eventID);
    }
  }

  /** Main result: the services run, their calls are saved or fail to be in any way, and the store opens again. What it
      finds is put together from moments of the run, and keeps what is said of one part. */
  lemma RestartOfRun(codec: FileStore.Codec<Part>, sys: FileStore.System<Part>, evs: seq<FileStore.Event<Part>>,
          c: Config, trace: seq<Sys>, steps: seq<Step>)
    returns (m: Store.State)
    requires FileStore.Faithful(codec) && FileStore.SystemOk(codec, sys) && FileStore.EventsOk(evs)
             && Carries(codec, sys, evs, StatesOf(trace)) && IsRun(c, trace, steps)
    ensures var loaded := FileStore.LoadOf(codec, FileStore.Run(codec, sys, evs).finals);
            loaded.Some? && Represents(loaded.value, m) && Patched(m, StatesOf(trace)) && Survives(c, m)
  {
    hide FileStore.PARTS, FileStore.LoadOf, FileStore.Run, FileStore.Whole, FileStore.Faithful, Carries, Represents,
      Patched, Survives, IsRun, StatesOf;
    m := RestartIsPatched(codec, sys, evs, StatesOf(trace));
    PatchedSurvives(c, trace, steps, m);
  }
}

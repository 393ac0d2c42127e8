/** Concrete runs that show where a promise ends. */
module SystemWitnesses {
  import Text
  import opened Records
  import opened References
  import opened Evidence
  import Sorting
  import GraphModel
  import GraphRefs
  import GraphSources
  import GraphTheorems
  import EvidenceGraph
  import Store
  import EvidenceService
  import OperationsService
  import AdjudicationService
  import RemindersService
  import opened SystemRuns
  import RunsOfHistory
  import RunsOfMarks
  import SystemReminders
  import opened SystemGraph
  import FileStore
  import opened SystemRestart
  import opened SystemRecovery
  import opened RunsWithRestarts

  const NOW: Instant := DAY

  /** What the create form submits: an item that expires today. */
  const SAMPLE := Item("", "", "Policy", "Security", "", "", "owner@example.com", "", "", None, Some(NOW), 30, [], [],
    [], 0, 0)

  function Stored(fold: Fold): Item {
    EvidenceService.NewItem(SAMPLE, "t", NOW, NOW, "a", fold)
  }

  function Created(fold: Fold): Sys {
    START.(st := Store.EMPTY_STATE.(evidence := map["t" := [Stored(fold)]]), drawn := {"a"}, owner := map["a" := "t"])
  }

  lemma SampleIsValid(fold: Fold)
    ensures Validate(Prepared(SAMPLE, NOW, fold)) == None
  {
    Text.TrimFixes("Policy", Text.IsSpace);
  }

  lemma CreateSample(c: Config)
    requires c.limit > 0
    ensures Next(c, START, CreateItem("t", SAMPLE, NOW, NOW, "a"), Created(c.fold))
  {
    hide Validate, Prepared;
    SampleIsValid(c.fold);
  }

  // ---- An export between the two reads of a graph ---------------------------

  function ReadSys(fold: Fold): Sys {
    Created(fold).(exports := multiset{Export("t", ["a"])})
  }

  function ExportedSys(fold: Fold): Sys {
    Created(fold).(st := Created(fold).st.(proofpacks := map["t" := [Proofpack("p", NOW, ["a"], "")]]),
      drawn := {"a", "p"})
  }

  lemma ExportSample(c: Config)
    ensures Next(c, Created(c.fold), ReadForExport("t"), ReadSys(c.fold))
    ensures Next(c, ReadSys(c.fold), RecordExport(Export("t", ["a"]), "p", NOW, ""), ExportedSys(c.fold))
  {
    hide Prepared;
    assert EvidenceService.ManifestOf([Stored(c.fold)]) == ["a"];
  }

  /** `Build` reads the items first. Here an item is created and exported after that, and before the proofpacks are
      read: the manifest entry is not shown. */
  lemma ExportBetweenReads(c: Config) returns (trace: seq<Sys>, steps: seq<Step>)
    requires c.limit > 0
    ensures IsRun(c, trace, steps) && |steps| == 3 && trace[2].st == trace[1].st
    ensures Rows(trace[3].st.proofpacks, "t") == [Proofpack("p", NOW, ["a"], "")]
    ensures forall inp, raw, maxNodes, maxEdges ::
              ReadAt(inp, raw, trace[0], trace[3], "t") && maxNodes > 0 && maxEdges > 0
                && GraphRefs.StampsAreText(inp) ==>
              !GraphSources.Emits(EvidenceGraph.GraphOf(inp, maxNodes, maxEdges).edges, ManifestTriple("a", "p"))
  {
    hide Next, Prepared, ManifestTriple, GraphRefs.StampsAreText, GraphModel.SortTenantData, EvidenceGraph.GraphOf,
      GraphSources.Justified;
    trace := [START, Created(c.fold), ReadSys(c.fold), ExportedSys(c.fold)];
    steps := [CreateItem("t", SAMPLE, NOW, NOW, "a"), ReadForExport("t"),
      RecordExport(Export("t", ["a"]), "p", NOW, "")];
    CreateSample(c);
    ExportSample(c);
    forall inp, raw, maxNodes, maxEdges | ReadAt(inp, raw, START, trace[3], "t") && maxNodes > 0 && maxEdges > 0
      && GraphRefs.StampsAreText(inp)
      ensures !GraphSources.Emits(EvidenceGraph.GraphOf(inp, maxNodes, maxEdges).edges, ManifestTriple("a", "p"))
    {
      ManifestJustified(inp, raw, "a", "p");
      GraphTheorems.GraphFollowsSourceRules(inp, maxNodes, maxEdges, ManifestTriple("a", "p"));
    }
  }

  // ---- Two selections that overlap ------------------------------------------

  /** The sample after this many checks, marks and attempts of its reminder. */
  function Reminding(fold: Fold, found: nat, jobs: nat, logs: seq<AuditEntry>): Sys {
    var job := Job(Stored(fold), DayOf(NOW));
    var s := Created(fold);
    s.(st := s.st.(reminderSent := if jobs + |logs| > 0 then {KeyOfJob(job)} else {}, auditLogs := logs),
       found := seq(found, _ => job), jobs := seq(jobs, _ => job), attempts := seq(|logs|, _ => job))
  }

  lemma Checks(c: Config, found: nat)
    requires c.limit > 0
    ensures Next(c, Reminding(c.fold, found, 0, []), CheckReminder(Stored(c.fold), NOW),
            Reminding(c.fold, found + 1, 0, []))
  {
    hide Stored, KeyOfJob;
    var s := Reminding(c.fold, found, 0, []);
    assert s.found + [Job(Stored(c.fold), DayOf(NOW))] == Reminding(c.fold, found + 1, 0, []).found;
    assert s.st.evidence["t"][0] == Stored(c.fold);
    SampleIsDue(c.fold);
  }

  lemma SampleIsDue(fold: Fold)
    ensures ReminderDue(Stored(fold), NOW)
  {
    hide NormalizeRefs, DeriveStatus;
    assert Stored(fold).ownerEmail == SAMPLE.ownerEmail;
  }

  lemma MarksFirst(c: Config, found: nat, jobs: nat)
    requires found > 0
    ensures Next(c, Reminding(c.fold, found, jobs, []), MarkReminder(0), Reminding(c.fold, found - 1, jobs + 1, []))
  {
    hide Prepared;
  }

  function Entry(fold: Fold): AuditEntry {
    RemindersService.ReminderEntry(Stored(fold), true, NOW)
  }

  lemma Sends(c: Config, jobs: nat, logs: seq<AuditEntry>)
    requires jobs > 0
    ensures Next(c, Reminding(c.fold, 0, jobs, logs), SendReminder(0, true, NOW),
            Reminding(c.fold, 0, jobs - 1, logs + [Entry(c.fold)]))
  {
    hide Prepared, RemindersService.Metadata;
  }

  /** Two selections that both check the item before either marks it send its reminder twice. */
  lemma TwoAttempts(c: Config) returns (trace: seq<Sys>, steps: seq<Step>)
    requires c.limit > 0
    ensures IsRun(c, trace, steps) && |steps| == 7 && SystemReminders.Overlaps(trace[2], steps[2])
    ensures |trace[7].attempts| == 2 && KeyOfJob(trace[7].attempts[0]) == KeyOfJob(trace[7].attempts[1])
    ensures |Sorting.Filter(trace[7].st.auditLogs, RunsOfMarks.IsReminder)| == 2
  {
    hide Next, Prepared, Sorting.Filter, RunsOfMarks.IsReminder, Reminding, RemindersService.ReminderEntry;
    var f, it := c.fold, Stored(c.fold);
    var e := Entry(f);
    trace := [START, Created(f), Reminding(f, 1, 0, []), Reminding(f, 2, 0, []), Reminding(f, 1, 1, []),
      Reminding(f, 0, 2, []), Reminding(f, 0, 1, [e]), Reminding(f, 0, 0, [e, e])];
    steps := [CreateItem("t", SAMPLE, NOW, NOW, "a"), CheckReminder(it, NOW), CheckReminder(it, NOW), MarkReminder(0),
      MarkReminder(0), SendReminder(0, true, NOW), SendReminder(0, true, NOW)];
    CreateSample(c);
    Checks(c, 0);
    Checks(c, 1);
    MarksFirst(c, 2, 0);
    MarksFirst(c, 1, 1);
    Sends(c, 2, []);
    Sends(c, 1, [e]);
    assert [] + [e] == [e] && [e] + [e] == [e, e];
    RemindingStates(f, e);
    SystemReminders.OneAttemptPerDay(c, trace, steps, 7);
  }

  lemma RemindingStates(fold: Fold, e: AuditEntry)
    ensures Reminding(fold, 0, 0, []) == Created(fold)
    ensures SystemReminders.Overlaps(Reminding(fold, 1, 0, []), CheckReminder(Stored(fold), NOW))
    ensures |Reminding(fold, 0, 0, [e, e]).attempts| == 2
    ensures Reminding(fold, 0, 0, [e, e]).attempts[0] == Reminding(fold, 0, 0, [e, e]).attempts[1]
  {
    hide Stored;
    assert KeyOfJob(Reminding(fold, 1, 0, []).found[0]) == RemindersService.KeyFor(Stored(fold), NOW);
  }

  // ---- Restarts from a mixture ----------------------------------------------

  /** An item is created, but the call fails to save any part; it is read and exported, and that call crashes after
      `proofpacks.json`. The store then opens on a manifest that names nothing. */
  lemma TornManifest(c: Config, codec: FileStore.Codec<Part>)
    returns (trace: seq<Sys>, steps: seq<Step>, sys: FileStore.System<Part>, evs: seq<FileStore.Event<Part>>)
    requires c.limit > 0 && FileStore.Faithful(codec)
    ensures IsRun(c, trace, steps) && |steps| == 3 && trace[2].st == trace[1].st
    ensures FileStore.SystemOk(codec, sys) && FileStore.EventsOk(evs)
            && Carries(codec, sys, evs, [trace[0].st, trace[1].st, trace[3].st])
    ensures |evs| == 2 && evs[0].Call? && FileStore.CallOf(codec, sys, evs[0]).1 == FileStore.PersistError
    ensures var mid := FileStore.After(codec, sys, evs[0]);
            mid.memory.Some? && evs[1].Call? && FileStore.CallOf(codec, mid, evs[1]).1 == FileStore.CrashedInside
    ensures var m := MixOf(trace[0].st, trace[3].st, {NameOf(PROOFPACKS)});
            var loaded := FileStore.LoadOf(codec, FileStore.Run(codec, sys, evs).finals);
            && loaded.Some? && Represents(loaded.value, m)
            && Rows(m.proofpacks, "t") == [Proofpack("p", NOW, ["a"], "")] && Rows(m.evidence, "t") == []
  {
    hide Next, Prepared, NameOf, FileStore.PARTS, FileStore.LoadOf, FileStore.Whole, FileStore.Faithful,
      FileStore.CallOf, FileStore.After, FileStore.Run, FileStore.EventsOk, Represents, Carries, MixOf, Holds,
      FileStore.SystemOk, ReadAt, EvidenceGraph.GraphOf, GraphRefs.StampsAreText, GraphSources.Emits;
    trace, steps := ExportBetweenReads(c);
    OnePartIsSome();
    sys := OpenedOn(codec, trace[0].st);
    evs := FailThenCrash(codec, sys, trace[0].st, trace[1].st, trace[3].st, {NameOf(PROOFPACKS)});
    TornRows(trace[0].st, trace[3].st);
  }

  lemma TornRows(a: Store.State, b: Store.State)
    ensures MixOf(a, b, {NameOf(PROOFPACKS)}).proofpacks == b.proofpacks
    ensures MixOf(a, b, {NameOf(PROOFPACKS)}).evidence == a.evidence
  {
    hide NameOf;
    NamesDiffer(PROOFPACKS, Kind.EVIDENCE);
  }

  lemma OnePartIsSome()
    ensures {NameOf(PROOFPACKS)} < FileStore.PARTS
  {
    NameIsPart(PROOFPACKS);
    NameIsPart(TENANTS);
    NamesDiffer(PROOFPACKS, TENANTS);
  }

  /** The first event of a tenant is saved, its milestone is not. */
  lemma TornMilestones(c: Config) returns (s: Sys, event: OperationalEvent)
    ensures Next(c, START, LogEvent("t", event), s)
    ensures var m := MixOf(START.st, s.st, {NameOf(EVENTS)});
            OperationsService.MilestonesAt(m.activation, "t") != OperationsService.MilestonesOf(Rows(m.events, "t"))
  {
    hide NameOf, MixOf, OperationsService.MilestonesOf;
    event := OperationalEvent("t", "evidence.created", "", "", NOW);
    s := START.(st := Store.EMPTY_STATE.(events := map["t" := [event]],
                                   activation := map["t" := NO_MILESTONES.(firstEvidenceCreatedAt := Some(NOW))]));
    NotAReview();
    HistoryAtStartIsOk();
    NamesDiffer(EVENTS, ACTIVATION);
    MixedMilestones(START, s, "t", event, {NameOf(EVENTS)});
  }

  lemma NotAReview()
    ensures "evidence.created" != OperationsService.REVIEW_EVENT
  {
    assert "evidence.created"[0] != OperationsService.REVIEW_EVENT[0];
  }

  lemma HistoryAtStartIsOk()
    ensures RunsOfHistory.MilestonesOk(START)
  {
  }

  /** An issue is opened and resolved. The resolved issue is saved, its event is not. */
  lemma TornResolution(c: Config) returns (s: Sys, s': Sys)
    ensures Next(c, START, Ensure("t", "a", "missing", NOW, "i"), s)
            && Next(c, s, Resolve("t", "i", "ada", "done", NOW, "e"), s')
    ensures var m := MixOf(s.st, s'.st, {NameOf(ISSUES)});
            !AdjudicationService.Corresponds(Rows(m.issues, "t"), Rows(m.adjudications, "t"))
  {
    hide NameOf, MixOf, AdjudicationService.Corresponds;
    var open := Issue("i", "t", "a", "missing", NOW, None, "");
    var done := Issue("i", "t", "a", "missing", NOW, Some(NOW), "done");
    s := START.(st := Store.EMPTY_STATE.(issues := map["t" := [open]]), drawn := {"i"});
    s' := s.(st := s.st.(issues := map["t" := [done]],
                         adjudications := map["t" := [Adjudication("e", "t", "i", "resolved", "ada", "done", NOW)]]),
                           drawn := {"i", "e"});
    OneIssueIsOk(open);
    NamesDiffer(ISSUES, ADJUDICATIONS);
    MixedResolution(s.st, s'.st, "t", "i", "ada", "done", NOW, "e", {NameOf(ISSUES)});
  }

  lemma OneIssueIsOk(open: Issue)
    requires open.tenantID == "t" && open.resolvedAt.None?
    ensures AdjudicationService.IssuesOk("t", [open], [])
  {
  }

  // ---- Marks that a restart finds or loses ----------------------------------

  function MarkedSys(eventID: string): Sys {
    START.(st := Store.EMPTY_STATE.(stripeEvents := {eventID}), processing := multiset{eventID})
  }

  /** Whatever comes after this state, the event is marked and not logged. */
  ghost predicate NeverLogs(c: Config, s: Sys, eventID: string) {
    forall trace: seq<Sys>, steps: seq<Step>, n: nat | AreSteps(c, trace, steps) && trace[0] == s && n <= |steps| ::
      eventID in trace[n].st.stripeEvents && Logged(trace[n], eventID) == 0
  }

  lemma MarkedNeverLogs(c: Config, s: Sys, eventID: string)
    requires s.processing == multiset{} && eventID in s.st.stripeEvents && Logged(s, eventID) == 0
    ensures NeverLogs(c, s, eventID)
  {
    hide Next, Logged;
    forall trace: seq<Sys>, steps: seq<Step>, n: nat | AreSteps(c, trace, steps) && trace[0] == s && n <= |steps|
      ensures eventID in trace[n].st.stripeEvents && Logged(trace[n], eventID) == 0
    {
      StaysUnlogged(c, trace, steps, n, eventID);
    }
  }

  /** A payment event is marked, and the process stops before it is logged. The mark is found again, so the event is
      never logged. */
  lemma NeverLogged(c: Config, eventID: string) returns (trace: seq<Sys>, steps: seq<Step>, s': Sys)
    ensures IsRun(c, trace, steps) && steps == [MarkPayment(eventID)]
    ensures Restarts(trace, s') && NeverLogs(c, s', eventID)
  {
    hide Next, Restarts, Logged, Restarted, MarkedSys, NeverLogs;
    var s := MarkedSys(eventID);
    MarksPayment(c, eventID);
    trace, steps := [START, s], [MarkPayment(eventID)];
    s' := Restarted(s, s.st, s.written);
    RestartsAsItWas(trace);
    FoundMarked(eventID);
    MarkedNeverLogs(c, s', eventID);
  }

  lemma StaysUnlogged(c: Config, trace: seq<Sys>, steps: seq<Step>, n: nat, eventID: string)
    requires AreSteps(c, trace, steps) && n <= |steps| && trace[0].processing == multiset{}
    requires eventID in trace[0].st.stripeEvents && Logged(trace[0], eventID) == 0
    ensures eventID in trace[n].st.stripeEvents && Logged(trace[n], eventID) == 0
  {
    hide Next, Logged, RunsOfMarks.Excess;
    PaymentsGoOn(c, trace, steps, n, eventID);
    ExcessStays(c, trace, steps, n, eventID);
  }

  /** All parts may be those of the last moment. */
  lemma RestartsAsItWas(past: seq<Sys>)
    requires past != []
    ensures var last := past[|past| - 1]; Restarts(past, Restarted(last, last.st, last.written))
  {
    hide Patched;
    var n := |past| - 1;
    assert StatesOf(past)[n] == past[n].st;
    StateIsPatched(StatesOf(past), n);
  }

  lemma FoundMarked(eventID: string)
    ensures var s := MarkedSys(eventID);
            var s' := Restarted(s, s.st, s.written);
            s'.processing == multiset{} && eventID in s'.st.stripeEvents && Logged(s', eventID) == 0
  {
  }

  lemma MarksPayment(c: Config, eventID: string)
    ensures Next(c, START, MarkPayment(eventID), MarkedSys(eventID))
  {
  }

  lemma StateIsPatched(states: seq<Store.State>, i: nat)
    requires i < |states|
    ensures Patched(states[i], states)
  {
    hide PartAt;
  }

  /** A reminder is marked, sent and logged, and the save of the log crashes after `audit_logs.json`: the mark was set
      under the read lock, and no earlier write carried it to the disk. The reminder is sent again. */
  lemma SentAgain(c: Config)
    returns (trace: seq<Sys>, steps: seq<Step>, later: seq<Sys>, more: seq<Step>)
    requires c.limit > 0
    ensures IsRun(c, trace, steps) && |steps| == 4 && |trace[4].attempts| == 1
    ensures AreSteps(c, later, more) && |more| == 3 && SystemReminders.NoOverlap(later, more, 3)
    ensures later[0].st == MixOf(trace[1].st, trace[4].st, {NameOf(AUDIT)}) && Restarts(trace, later[0])
    ensures !SystemReminders.NoSecondAttempt(later[3])
  {
    hide Next, Prepared, Reminding, RemindersService.ReminderEntry, NameOf, MixOf, Patched, Stored,
      Evidence.ReminderDue, RemindersService.HasItem, SystemReminders.NoSecondAttempt, SystemReminders.NoOverlap;
    var f, it := c.fold, Stored(c.fold);
    var e := Entry(f);
    trace := [START, Created(f), Reminding(f, 1, 0, []), Reminding(f, 0, 1, []), Reminding(f, 0, 0, [e])];
    steps := [CreateItem("t", SAMPLE, NOW, NOW, "a"), CheckReminder(it, NOW), MarkReminder(0),
      SendReminder(0, true, NOW)];
    CreateSample(c);
    Checks(c, 0);
    MarksFirst(c, 1, 0);
    Sends(c, 1, []);
    assert [] + [e] == [e];
    SentStates(f, e);
    var m := MixOf(trace[1].st, trace[4].st, {NameOf(AUDIT)});
    var s := Restarted(trace[4], m, trace[4].written);
    assert StatesOf(trace)[1] == trace[1].st && StatesOf(trace)[4] == trace[4].st;
    MixIsPatched(StatesOf(trace), 1, 4, {NameOf(AUDIT)});
    SampleIsDue(f);
    later, more := LostMarkSecondAttempt(c, s, 0, it, NOW);
  }

  lemma SentStates(fold: Fold, e: AuditEntry)
    ensures Reminding(fold, 0, 0, []) == Created(fold)
    ensures var sent := Reminding(fold, 0, 0, [e]);
            && |sent.attempts| == 1 && sent.found == [] && sent.jobs == []
            && KeyOfJob(sent.attempts[0]) == RemindersService.KeyFor(Stored(fold), NOW)
            && sent.written == Created(fold).written
    ensures var m := MixOf(Created(fold).st, Reminding(fold, 0, 0, [e]).st, {NameOf(AUDIT)});
            && m.reminderSent == {} && RemindersService.HasItem(m.evidence, Stored(fold))
            && m.opSnapshots == Reminding(fold, 0, 0, [e]).st.opSnapshots
  {
    hide Stored, NameOf;
    NamesDiffer(AUDIT, REMINDERS);
    NamesDiffer(AUDIT, Kind.EVIDENCE);
    NamesDiffer(AUDIT, SNAPSHOTS);
    var m := MixOf(Created(fold).st, Reminding(fold, 0, 0, [e]).st, {NameOf(AUDIT)});
    assert m.evidence["t"][0] == Stored(fold);
  }
}

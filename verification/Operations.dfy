/** Operational history: events and milestones, review snapshots, daily operational snapshots, and what is
    derived from them. */
module OperationsService {
  import opened Records
  import opened Store
  import opened Sorting
  import GraphModel

  // ---- Events and milestones ------------------------------------------------

  const REVIEW_EVENT := "review.snapshot.generated"

  /** The switch of `RecordEvent`. */
  function Reached(ms: Milestones, typ: string, now: Instant): Milestones {
    if typ == "evidence.created" then
      if ms.firstEvidenceCreatedAt.None? then ms.(firstEvidenceCreatedAt := Some(now)) else ms
    else if typ == "evidence.file.uploaded" then
      if ms.firstFileUploadedAt.None? then ms.(firstFileUploadedAt := Some(now)) else ms
    else if typ == "proofpack.generated" then
      if ms.firstProofpackGeneratedAt.None? then ms.(firstProofpackGeneratedAt := Some(now)) else ms
    else if typ == REVIEW_EVENT then
      if ms.firstOperationalReviewAt.None? then ms.(firstOperationalReviewAt := Some(now))
      else if ms.secondWeeklyReviewAt.None? then ms.(secondWeeklyReviewAt := Some(now))
      else ms
    else if typ == "reminders.run" then
      if ms.firstReminderRunAt.None? then ms.(firstReminderRunAt := Some(now)) else ms
    else ms
  }

  function MilestonesAt(activation: map<string, Milestones>, tenantID: string): Milestones {
    if tenantID in activation then activation[tenantID] else NO_MILESTONES
  }

  /** The whole effect of one call. */
  ghost predicate EventStep(before: State, after: State, tenantID: string, event: OperationalEvent) {
    && RowsSet(before.events, after.events, tenantID, [event] + Rows(before.events, tenantID))
    && MilestonesAt(after.activation, tenantID)
      == Reached(MilestonesAt(before.activation, tenantID), event.typ, event.createdAt)
    && (forall t :: t != tenantID ==> MilestonesAt(after.activation, t) == MilestonesAt(before.activation, t))
    && after == before.(events := after.events, activation := after.activation)
  }

  method RecordEvent(store: MemoryStore, tenantID: string, typ: string, message: string, entityID: string, now: Instant)
    modifies store
    ensures EventStep(old(store.st), store.st, tenantID, OperationalEvent(tenantID, typ, message, entityID, now))
  {
    var event := OperationalEvent(tenantID, typ, message, entityID, now);
    store.st := store.st.(events := store.st.events[tenantID := [event] + Rows(store.st.events, tenantID)]);
    var ms := MilestonesAt(store.st.activation, tenantID);
    if typ == "evidence.created" {
      if ms.firstEvidenceCreatedAt.None? { ms := ms.(firstEvidenceCreatedAt := Some(now)); }
    } else if typ == "evidence.file.uploaded" {
      if ms.firstFileUploadedAt.None? { ms := ms.(firstFileUploadedAt := Some(now)); }
    } else if typ == "proofpack.generated" {
      if ms.firstProofpackGeneratedAt.None? { ms := ms.(firstProofpackGeneratedAt := Some(now)); }
    } else if typ == REVIEW_EVENT {
      if ms.firstOperationalReviewAt.None? {
        ms := ms.(firstOperationalReviewAt := Some(now));
      } else if ms.secondWeeklyReviewAt.None? {
        ms := ms.(secondWeeklyReviewAt := Some(now));
      }
    } else if typ == "reminders.run" {
      if ms.firstReminderRunAt.None? { ms := ms.(firstReminderRunAt := Some(now)); }
    }
    store.st := store.st.(activation := store.st.activation[tenantID := ms]);
  }

  /** The times of the logged events of a type, oldest first; the log itself is newest first. */
  function Times(events: seq<OperationalEvent>, typ: string): seq<Instant> {
    if events == [] then [] else Times(events[1..], typ) + if events[0].typ == typ then [events[0].createdAt] else []
  }

  function Nth(times: seq<Instant>, k: nat): Option<Instant> {
    if k < |times| then Some(times[k]) else None
  }

  /** The activation record that an event log stands for. */
  function MilestonesOf(events: seq<OperationalEvent>): Milestones {
    Milestones(
      Nth(Times(events, "evidence.created"), 0), Nth(Times(events, "evidence.file.uploaded"), 0),
      Nth(Times(events, "reminders.run"), 0), Nth(Times(events, "proofpack.generated"), 0),
      Nth(Times(events, REVIEW_EVENT), 0), Nth(Times(events, REVIEW_EVENT), 1))
  }

  lemma TimesCons(ev: OperationalEvent, events: seq<OperationalEvent>, typ: string)
    ensures Times([ev] + events, typ) == Times(events, typ) + if ev.typ == typ then [ev.createdAt] else []
  {
  }

  /** Logging an event and updating the record together keep the record equal to what the log stands for. */
  lemma RecordKeepsMilestones(events: seq<OperationalEvent>, ev: OperationalEvent)
    ensures Reached(MilestonesOf(events), ev.typ, ev.createdAt) == MilestonesOf([ev] + events)
  {
    hide Times;
    TimesCons(ev, events, "evidence.created");
    TimesCons(ev, events, "evidence.file.uploaded");
    TimesCons(ev, events, "reminders.run");
    TimesCons(ev, events, "proofpack.generated");
    TimesCons(ev, events, REVIEW_EVENT);
  }

  /** Place `k` holds the oldest event of the type that is newer than place `after`; the log is newest first. */
  predicate NextOldest(events: seq<OperationalEvent>, typ: string, k: int, after: int) {
    && 0 <= k < after <= |events| && events[k].typ == typ
    && forall j :: k < j < after ==> events[j].typ != typ
  }

  ghost predicate OldestIs(events: seq<OperationalEvent>, typ: string, time: Option<Instant>) {
    if time.None? then forall j :: 0 <= j < |events| ==> events[j].typ != typ
    else exists k :: NextOldest(events, typ, k, |events|) && events[k].createdAt == time.value
  }

  ghost predicate SecondOldestIs(events: seq<OperationalEvent>, typ: string, time: Option<Instant>) {
    if time.None? then forall j, k :: 0 <= j < k < |events| ==> events[j].typ != typ || events[k].typ != typ
    else exists k, m :: NextOldest(events, typ, k, |events|) && NextOldest(events, typ, m, k)
           && events[m].createdAt == time.value
  }

  lemma {:induction false} TimesMean(events: seq<OperationalEvent>, typ: string)
    ensures OldestIs(events, typ, Nth(Times(events, typ), 0))
    ensures SecondOldestIs(events, typ, Nth(Times(events, typ), 1))
    ensures |Times(events, typ)| == 0 <==> forall j :: 0 <= j < |events| ==> events[j].typ != typ
  {
    if events != [] {
      hide OldestIs, SecondOldestIs;
      var e, rest := events[0], events[1..];
      assert events == [e] + rest;
      TimesMean(rest, typ);
      TimesCons(e, rest, typ);
      OldestLater(e, rest, typ);
      SecondOldestLater(e, rest, typ);
    }
  }

  lemma OldestLater(e: OperationalEvent, rest: seq<OperationalEvent>, typ: string)
    requires OldestIs(rest, typ, Nth(Times(rest, typ), 0))
    requires |Times(rest, typ)| == 0 <==> forall j :: 0 <= j < |rest| ==> rest[j].typ != typ
    ensures OldestIs([e] + rest, typ, Nth(Times([e] + rest, typ), 0))
    ensures |Times([e] + rest, typ)| == 0 <==> forall j :: 0 <= j < |[e] + rest| ==> ([e] + rest)[j].typ != typ
  {
    hide Times;
    TimesCons(e, rest, typ);
    var events := [e] + rest;
    assert forall j :: 0 < j < |events| ==> events[j] == rest[j - 1];
    if |Times(rest, typ)| > 0 {
      var k :| NextOldest(rest, typ, k, |rest|) && rest[k].createdAt == Times(rest, typ)[0];
      assert NextOldest(events, typ, k + 1, |events|);
    } else if e.typ == typ {
      assert NextOldest(events, typ, 0, |events|);
    }
  }

  lemma SecondOldestLater(e: OperationalEvent, rest: seq<OperationalEvent>, typ: string)
    requires OldestIs(rest, typ, Nth(Times(rest, typ), 0)) && SecondOldestIs(rest, typ, Nth(Times(rest, typ), 1))
    requires |Times(rest, typ)| == 0 <==> forall j :: 0 <= j < |rest| ==> rest[j].typ != typ
    ensures SecondOldestIs([e] + rest, typ, Nth(Times([e] + rest, typ), 1))
  {
    hide Times;
    TimesCons(e, rest, typ);
    var events := [e] + rest;
    assert forall j :: 0 < j < |events| ==> events[j] == rest[j - 1];
    if |Times(rest, typ)| > 1 {
      var k, m :| NextOldest(rest, typ, k, |rest|) && NextOldest(rest, typ, m, k)
        && rest[m].createdAt == Times(rest, typ)[1];
      assert NextOldest(events, typ, k + 1, |events|) && NextOldest(events, typ, m + 1, k + 1);
    } else if |Times(rest, typ)| == 1 && e.typ == typ {
      SecondIsNew(e, rest, typ);
    }
  }

  lemma SecondIsNew(e: OperationalEvent, rest: seq<OperationalEvent>, typ: string)
    requires e.typ == typ && |Times(rest, typ)| == 1
    requires OldestIs(rest, typ, Nth(Times(rest, typ), 0)) && SecondOldestIs(rest, typ, None)
    ensures SecondOldestIs([e] + rest, typ, Some(e.createdAt))
  {
    hide Times;
    var events := [e] + rest;
    assert forall j :: 0 < j < |events| ==> events[j] == rest[j - 1];
    var k :| NextOldest(rest, typ, k, |rest|);
    assert NextOldest(events, typ, k + 1, |events|);
    assert rest[k].typ == typ;
    assert NextOldest(events, typ, 0, k + 1);
  }

  /** The record that a log stands for: the times of the oldest events of five types, and of the second review. */
  lemma MilestonesMean(events: seq<OperationalEvent>)
    ensures var ms := MilestonesOf(events);
            && OldestIs(events, "evidence.created", ms.firstEvidenceCreatedAt)
            && OldestIs(events, "evidence.file.uploaded", ms.firstFileUploadedAt)
            && OldestIs(events, "reminders.run", ms.firstReminderRunAt)
            && OldestIs(events, "proofpack.generated", ms.firstProofpackGeneratedAt)
            && OldestIs(events, "review.snapshot.generated", ms.firstOperationalReviewAt)
            && SecondOldestIs(events, "review.snapshot.generated", ms.secondWeeklyReviewAt)
  {
    hide OldestIs, SecondOldestIs, Times;
    TimesMean(events, "evidence.created");
    TimesMean(events, "evidence.file.uploaded");
    TimesMean(events, "reminders.run");
    TimesMean(events, "proofpack.generated");
    TimesMean(events, "review.snapshot.generated");
  }

  /** What is set in the first record is set to the same time in the second. */
  predicate StillReached(before: Option<Instant>, after: Option<Instant>) {
    before.Some? ==> after == before
  }

  predicate MilestonesStay(before: Milestones, after: Milestones) {
    && StillReached(before.firstEvidenceCreatedAt, after.firstEvidenceCreatedAt)
    && StillReached(before.firstFileUploadedAt, after.firstFileUploadedAt)
    && StillReached(before.firstReminderRunAt, after.firstReminderRunAt)
    && StillReached(before.firstProofpackGeneratedAt, after.firstProofpackGeneratedAt)
    && StillReached(before.firstOperationalReviewAt, after.firstOperationalReviewAt)
    && StillReached(before.secondWeeklyReviewAt, after.secondWeeklyReviewAt)
  }

  lemma RecordKeepsReached(ms: Milestones, typ: string, now: Instant)
    ensures MilestonesStay(ms, Reached(ms, typ, now))
  {
  }

  // ---- Review snapshots -----------------------------------------------------

  ghost predicate ReviewStep(before: State, after: State, tenantID: string, snap: ReviewSnapshot) {
    && RowsSet(before.reviews, after.reviews, tenantID, [snap] + Rows(before.reviews, tenantID))
    && after == before.(reviews := after.reviews)
  }

  method StoreReview(store: MemoryStore, tenantID: string, snap: ReviewSnapshot)
    modifies store
    ensures ReviewStep(old(store.st), store.st, tenantID, snap)
  {
    store.st := store.st.(reviews := store.st.reviews[tenantID := [snap] + Rows(store.st.reviews, tenantID)]);
  }

  /** `int(d.Hours() / 24)`: whole days, towards zero. */
  function WholeDays(d: int): int {
    if d >= 0 then d / DAY else -((-d) / DAY)
  }

  datatype Comparison = Comparison(
    healthDelta: int, unresolvedDelta: int, staleDelta: int, ownerlessDelta: int, expiredDelta: int,
    cadenceDeltaDays: int, state: string, persistentUnresolved: bool, repeatedFriction: bool)

  function Compared(from: ReviewSnapshot, to: ReviewSnapshot): Comparison {
    var health, unresolved := from.healthScore - to.healthScore, from.unresolvedIssues - to.unresolvedIssues;
    Comparison(
      health, unresolved, from.staleEvidence - to.staleEvidence, from.missingOwners - to.missingOwners,
      from.expiredEvidence - to.expiredEvidence, WholeDays(from.lastReviewedAt - to.lastReviewedAt),
      if health < -2 || unresolved > 0 then "degrading" else if health > 2 && unresolved <= 0 then "improving"
        else "stable",
      from.unresolvedIssues > 0 && to.unresolvedIssues > 0, from.staleEvidence > 0 && to.staleEvidence > 0)
  }

  function CompareReviews(reviews: seq<ReviewSnapshot>, from: int, to: int): Option<Comparison> {
    if from < 0 || to < 0 || from >= |reviews| || to >= |reviews| then None
    else Some(Compared(reviews[from], reviews[to]))
  }

  /** The comparison of two reviews: what the numbers of the first exceed those of the second by, the whole days between
      them rounded towards zero, and the word for the trend. */
  lemma ComparisonMeans(a: ReviewSnapshot, b: ReviewSnapshot)
    ensures var c := Compared(a, b);
            && c.healthDelta == a.healthScore - b.healthScore
            && c.unresolvedDelta == a.unresolvedIssues - b.unresolvedIssues
            && c.staleDelta == a.staleEvidence - b.staleEvidence
            && c.ownerlessDelta == a.missingOwners - b.missingOwners
            && c.expiredDelta == a.expiredEvidence - b.expiredEvidence
            && (c.persistentUnresolved <==> a.unresolvedIssues > 0 && b.unresolvedIssues > 0)
            && (c.repeatedFriction <==> a.staleEvidence > 0 && b.staleEvidence > 0)
    ensures WholeDaysAre(a.lastReviewedAt - b.lastReviewedAt, Compared(a, b).cadenceDeltaDays)
    ensures var worse := a.healthScore < b.healthScore - 2 || a.unresolvedIssues > b.unresolvedIssues;
            var better := a.healthScore > b.healthScore + 2;
            Compared(a, b).state == if worse then "degrading" else if better then "improving" else "stable"
  {
    DaysAreWhole(a.lastReviewedAt - b.lastReviewedAt);
  }

  /** `n` whole days fit between zero and the duration. */
  predicate WholeDaysAre(d: int, n: int) {
    if d >= 0 then n * 86_400_000_000_000 <= d < (n + 1) * 86_400_000_000_000
    else (n - 1) * 86_400_000_000_000 < d <= n * 86_400_000_000_000
  }

  lemma DaysAreWhole(d: int)
    ensures WholeDaysAre(d, WholeDays(d))
  {
  }

  datatype PilotRitual = PilotRitual(
    week: int, reviewCount: nat, lastReviewAt: Option<Instant>, daysSinceLastReview: int, missedCadence: bool,
    week4Ready: bool, comparisonExportReady: bool, continuityDependenceForming: bool)

  function PilotRitualOf(reviews: seq<ReviewSnapshot>, now: Instant): PilotRitual {
    var n := |reviews|;
    if n == 0 then PilotRitual(1, 0, None, 0, false, false, false, false)
    else
      var days := WholeDays(now - reviews[0].lastReviewedAt);
      PilotRitual(if n >= 4 then 4 else n, n, Some(reviews[0].lastReviewedAt), days, days > 9, n >= 4, n >= 2, n >= 2)
  }

  /** `deriveStage`. */
  function DeriveStage(health: int, totalEvidence: nat, owners: nat, proofpacks: nat, streak: nat,
          ms: Milestones): string {
    if health >= 75 && totalEvidence >= 12 && owners > 1 && proofpacks >= 3 && streak >= 3 then "expansion-ready"
    else if ms.secondWeeklyReviewAt.Some? then "recurring"
    else if ms.firstProofpackGeneratedAt.Some? && ms.firstOperationalReviewAt.Some? then "operational"
    else if ms.firstEvidenceCreatedAt.Some? && ms.firstFileUploadedAt.Some? then "activated"
    else "exploring"
  }

  /** The pilot ritual in terms of the number of reviews and the time of the first listed one. */
  lemma PilotMeans(reviews: seq<ReviewSnapshot>, now: Instant)
    ensures var p, n := PilotRitualOf(reviews, now), |reviews|;
            && p.reviewCount == n && p.week == (if n == 0 then 1 else if n < 4 then n else 4)
            && (p.week4Ready <==> n >= 4) && (p.comparisonExportReady <==> n >= 2)
            && (p.continuityDependenceForming <==> n >= 2)
            && p.lastReviewAt == (if n == 0 then None else Some(reviews[0].lastReviewedAt))
            && (n > 0 ==> WholeDaysAre(now - reviews[0].lastReviewedAt, p.daysSinceLastReview))
            && (p.missedCadence <==> n > 0 && now - reviews[0].lastReviewedAt >= 10 * 86_400_000_000_000)
  {
    if |reviews| > 0 {
      DaysAreWhole(now - reviews[0].lastReviewedAt);
    }
  }

  /** The stage is the first of five whose condition holds. */
  lemma StageMeans(health: int, totalEvidence: nat, owners: nat, proofpacks: nat, streak: nat, ms: Milestones)
    ensures var stage := DeriveStage(health, totalEvidence, owners, proofpacks, streak, ms);
            var expansion := health >= 75 && totalEvidence >= 12 && owners >= 2 && proofpacks >= 3 && streak >= 3;
            var recurring := ms.secondWeeklyReviewAt != None;
            var operational := ms.firstProofpackGeneratedAt != None && ms.firstOperationalReviewAt != None;
            var activated := ms.firstEvidenceCreatedAt != None && ms.firstFileUploadedAt != None;
            && (stage == "expansion-ready" <==> expansion)
            && (stage == "recurring" <==> !expansion && recurring)
            && (stage == "operational" <==> !expansion && !recurring && operational)
            && (stage == "activated" <==> !expansion && !recurring && !operational && activated)
            && (stage == "exploring" <==> !expansion && !recurring && !operational && !activated)
  {
    assert |"expansion-ready"| == 15 && |"recurring"| == 9 && |"operational"| == 11;
    assert "activated"[0] == 'a' && "recurring"[0] == 'r' && |"exploring"| == 9 && "exploring"[0] == 'e';
  }

  /** For a newest-first list the graph's own sort changes nothing, and its comparison node is "unresolved" exactly
      when the comparison of the two latest reviews is degrading. */
  lemma GraphAgreesWithComparison(reviews: seq<ReviewSnapshot>)
    requires |reviews| >= 2 && Sorted(reviews, GraphModel.ReviewedLater)
    ensures GraphModel.SortReviews(reviews) == reviews
    ensures var sorted := GraphModel.SortReviews(reviews);
            GraphModel.ComparisonStatus(sorted[0], sorted[1]) == "unresolved" <==>
            CompareReviews(reviews, 0, 1).value.state == "degrading"
  {
    hide StableSort;
    SortFixesSorted(reviews, GraphModel.ReviewedLater);
  }

  // ---- Review streak --------------------------------------------------------

  predicate OnTime(later: ReviewSnapshot, earlier: ReviewSnapshot) {
    later.lastReviewedAt - earlier.lastReviewedAt <= 9 * DAY
  }

  /** `k` is the length of the longest prefix whose gaps are all at most nine days. */
  predicate IsStreak(reviews: seq<ReviewSnapshot>, k: nat) {
    && (k == 0 <==> reviews == [])
    && k <= |reviews|
    && (forall i :: 0 < i < k ==> OnTime(reviews[i - 1], reviews[i]))
    && (0 < k < |reviews| ==> !OnTime(reviews[k - 1], reviews[k]))
  }

  method ReviewStreak(reviews: seq<ReviewSnapshot>) returns (streak: nat)
    ensures IsStreak(reviews, streak)
    ensures forall i :: 0 < i < streak ==>
              reviews[i - 1].lastReviewedAt - reviews[i].lastReviewedAt <= 9 * 86_400_000_000_000
    ensures 0 < streak < |reviews| ==>
              reviews[streak - 1].lastReviewedAt - reviews[streak].lastReviewedAt > 9 * 86_400_000_000_000
  {
    if |reviews| == 0 {
      return 0;
    }
    streak := 1;
    for i := 1 to |reviews|
      invariant streak == i
      invariant forall k :: 0 < k < i ==> OnTime(reviews[k - 1], reviews[k])
    {
      if reviews[i - 1].lastReviewedAt - reviews[i].lastReviewedAt <= 9 * DAY {
        streak := streak + 1;
        continue;
      }
      break;
    }
  }

  lemma StreakIsUnique(reviews: seq<ReviewSnapshot>, k: nat, m: nat)
    requires IsStreak(reviews, k) && IsStreak(reviews, m)
    ensures k == m
  {
  }

  /** A new review either lengthens the streak by one or starts it again. */
  lemma StreakGrowsOrRestarts(reviews: seq<ReviewSnapshot>, k: nat, r: ReviewSnapshot, k': nat)
    requires IsStreak(reviews, k) && IsStreak([r] + reviews, k')
    ensures k' == if reviews != [] && OnTime(r, reviews[0]) then k + 1 else 1
  {
    var next := [r] + reviews;
    var expected := if reviews != [] && OnTime(r, reviews[0]) then k + 1 else 1;
    forall i | 0 < i < expected
      ensures OnTime(next[i - 1], next[i])
    {
      assert i > 1 ==> next[i - 1] == reviews[i - 2] && next[i] == reviews[i - 1];
    }
    assert IsStreak(next, expected);
    StreakIsUnique(next, k', expected);
  }

  // ---- Review reports -------------------------------------------------------

  ghost predicate ReportStep(before: State, after: State, tenantID: string, report: ReviewReport) {
    && RowsSet(before.reports, after.reports, tenantID, [report] + Rows(before.reports, tenantID))
    && after == before.(reports := after.reports)
  }

  /** The write of `GenerateReviewReport`; an event about the report is logged by a second write. */
  method StoreReport(store: MemoryStore, tenantID: string, report: ReviewReport)
    modifies store
    ensures ReportStep(old(store.st), store.st, tenantID, report)
  {
    store.st := store.st.(reports := store.st.reports[tenantID := [report] + Rows(store.st.reports, tenantID)]);
  }

  // ---- Daily operational snapshots ------------------------------------------

  const MAX_SNAPSHOTS := 90

  /** The write of `GenerateOperationalSnapshot`: replace today's snapshot, or put a new day in front. */
  function WithSnapshot(arr: seq<OperationalSnapshot>, snap: OperationalSnapshot): seq<OperationalSnapshot> {
    if |arr| > 0 && arr[0].date == snap.date then arr[0 := snap] else AtMost([snap] + arr, MAX_SNAPSHOTS)
  }

  ghost predicate SnapshotStep(before: State, after: State, tenantID: string, snap: OperationalSnapshot) {
    && RowsSet(before.opSnapshots, after.opSnapshots, tenantID, WithSnapshot(Rows(before.opSnapshots, tenantID), snap))
    && after == before.(opSnapshots := after.opSnapshots)
  }

  method StoreOperationalSnapshot(store: MemoryStore, tenantID: string, snap: OperationalSnapshot)
    modifies store
    ensures SnapshotStep(old(store.st), store.st, tenantID, snap)
  {
    var arr := Rows(store.st.opSnapshots, tenantID);
    if |arr| > 0 && arr[0].date == snap.date {
      store.st := store.st.(opSnapshots := store.st.opSnapshots[tenantID := arr[0 := snap]]);
      return;
    }
    arr := [snap] + arr;
    if |arr| > 90 {
      arr := arr[..90];
    }
    store.st := store.st.(opSnapshots := store.st.opSnapshots[tenantID := arr]);
  }

  /** What is stored after this history of snapshots, oldest first. */
  function StoredAfter(history: seq<OperationalSnapshot>): seq<OperationalSnapshot> {
    if history == [] then [] else WithSnapshot(StoredAfter(history[..|history| - 1]), history[|history| - 1])
  }

  /** Newest first, the snapshots of the history that are not directly followed by one of the same day. */
  function LastOfDays(history: seq<OperationalSnapshot>): seq<OperationalSnapshot> {
    if history == [] then []
    else LastOfDays(history[1..]) + if |history| == 1 || history[1].date != history[0].date then [history[0]] else []
  }

  lemma {:induction false} LastOfDaysSnoc(history: seq<OperationalSnapshot>, snap: OperationalSnapshot)
    ensures history != [] ==> LastOfDays(history) != [] && LastOfDays(history)[0] == history[|history| - 1]
    ensures LastOfDays(history + [snap]) ==
            var days := LastOfDays(history);
            [snap] + if history != [] && history[|history| - 1].date == snap.date then days[1..] else days
  {
    if |history| == 0 {
      assert history + [snap] == [snap];
    } else if |history| == 1 {
      assert (history + [snap])[1..] == [snap];
      assert history[1..] == [];
      assert LastOfDays([snap]) == [snap];
    } else {
      LastOfDaysSnoc(history[1..], snap);
      assert (history + [snap])[1..] == history[1..] + [snap];
    }
  }

  lemma AtMostHead(days: seq<OperationalSnapshot>, snap: OperationalSnapshot)
    ensures days != [] && days[0].date == snap.date ==>
            WithSnapshot(AtMost(days, MAX_SNAPSHOTS), snap) == AtMost([snap] + days[1..], MAX_SNAPSHOTS)
    ensures days == [] || days[0].date != snap.date ==>
            WithSnapshot(AtMost(days, MAX_SNAPSHOTS), snap) == AtMost([snap] + days, MAX_SNAPSHOTS)
  {
  }

  /** Main result: after any serial run the stored list is the newest ninety of the last snapshots of the days. */
  lemma {:induction false} StoredIsLastOfDays(history: seq<OperationalSnapshot>)
    ensures StoredAfter(history) == AtMost(LastOfDays(history), 90)
  {
    if history != [] {
      var front, snap := history[..|history| - 1], history[|history| - 1];
      StoredIsLastOfDays(front);
      LastOfDaysSnoc(front, snap);
      assert history == front + [snap];
      AtMostHead(LastOfDays(front), snap);
    }
  }

  predicate ClockForward(history: seq<OperationalSnapshot>) {
    forall i, j :: 0 <= i < j < |history| ==> history[i].date <= history[j].date
  }

  /** `s` is the last snapshot of its day in the whole history. */
  ghost predicate LastOfItsDay(history: seq<OperationalSnapshot>, s: OperationalSnapshot) {
    exists i :: 0 <= i < |history| && history[i] == s && forall j :: i < j < |history| ==> history[j].date != s.date
  }

  ghost predicate HasDay(list: seq<OperationalSnapshot>, date: int) {
    exists k :: 0 <= k < |list| && list[k].date == date
  }

  predicate DatesDecrease(days: seq<OperationalSnapshot>) {
    forall k, m :: 0 <= k < m < |days| ==> days[k].date > days[m].date
  }

  predicate DatesFrom(days: seq<OperationalSnapshot>, date: int) {
    forall k :: 0 <= k < |days| ==> days[k].date >= date
  }

  /** With a clock that never goes back the days strictly decrease … */
  lemma {:induction false} DaysDecrease(history: seq<OperationalSnapshot>)
    requires ClockForward(history)
    ensures DatesDecrease(LastOfDays(history))
    ensures history != [] ==> DatesFrom(LastOfDays(history), history[0].date)
  {
    if |history| == 1 {
      assert history[1..] == [];
    } else if |history| > 1 {
      DaysDecrease(history[1..]);
      assert history[0].date <= history[1].date;
    }
  }

  /** … each entry is the last snapshot of its day … */
  lemma {:induction false} EntriesAreLast(history: seq<OperationalSnapshot>)
    requires ClockForward(history)
    ensures forall k :: 0 <= k < |LastOfDays(history)| ==> LastOfItsDay(history, LastOfDays(history)[k])
  {
    hide LastOfItsDay;
    if history != [] {
      var days, older := LastOfDays(history), LastOfDays(history[1..]);
      EntriesAreLast(history[1..]);
      forall k | 0 <= k < |days| ensures LastOfItsDay(history, days[k]) {
        if k < |older| {
          LastOfItsDayLater(history, days[k]);
        } else {
          LastOfFirstDay(history);
        }
      }
    }
  }

  /** … and every day of the history has one. */
  lemma {:induction false} EveryDayIsKept(history: seq<OperationalSnapshot>)
    ensures forall i :: 0 <= i < |history| ==> HasDay(LastOfDays(history), history[i].date)
  {
    if history != [] {
      var rest, days, older := history[1..], LastOfDays(history), LastOfDays(history[1..]);
      EveryDayIsKept(rest);
      forall i | 0 <= i < |history| ensures HasDay(days, history[i].date) {
        if i > 0 || |days| == |older| {
          var j := if i > 0 then i - 1 else 0;
          assert HasDay(older, rest[j].date);
          var k :| 0 <= k < |older| && older[k].date == history[i].date;
          assert days[k] == older[k];
        } else {
          assert days[|older|] == history[0];
        }
      }
    }
  }

  lemma LastOfItsDayLater(history: seq<OperationalSnapshot>, s: OperationalSnapshot)
    requires history != [] && LastOfItsDay(history[1..], s)
    ensures LastOfItsDay(history, s)
  {
  }

  lemma LastOfFirstDay(history: seq<OperationalSnapshot>)
    requires ClockForward(history) && history != [] && (|history| == 1 || history[1].date != history[0].date)
    ensures LastOfItsDay(history, history[0])
  {
  }

  /** What is stored: at most ninety snapshots, of strictly decreasing days, each the last of its day; and every day
      of the history is stored unless ninety later days are. */
  lemma StoredHistory(history: seq<OperationalSnapshot>)
    requires ClockForward(history)
    ensures var stored := StoredAfter(history);
            && |stored| <= 90
            && DatesDecrease(stored)
            && (forall k :: 0 <= k < |stored| ==> LastOfItsDay(history, stored[k]))
            && (forall i :: 0 <= i < |history| ==>
                  HasDay(stored, history[i].date)
                    || (|stored| == 90 && forall k :: 0 <= k < |stored| ==>
                      stored[k].date > history[i].date))
  {
    hide LastOfItsDay;
    StoredIsLastOfDays(history);
    DaysDecrease(history);
    EntriesAreLast(history);
    EveryDayIsKept(history);
    var days, stored := LastOfDays(history), StoredAfter(history);
    forall i | 0 <= i < |history|
      ensures HasDay(stored, history[i].date)
              || (|stored| == MAX_SNAPSHOTS && forall k :: 0 <= k < |stored| ==> stored[k].date > history[i].date)
    {
      assert HasDay(days, history[i].date);
      var k :| 0 <= k < |days| && days[k].date == history[i].date;
      if k < |stored| {
        assert stored[k] == days[k];
      }
    }
  }
}

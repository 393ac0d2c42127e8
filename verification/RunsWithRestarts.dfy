/** Runs that go on after restarts, each of which may find parts of any earlier moments. */
module RunsWithRestarts {
  import opened Records
  import opened Sorting
  import Evidence
  import Store
  import EvidenceService
  import opened OperationsService
  import BillingService
  import opened RemindersService
  import opened SystemRuns
  import opened RunsOfEvidence
  import RunsOfHistory
  import opened RunsOfIssues
  import opened RunsOfMarks
  import opened SystemReminders
  import FileStore
  import opened SystemRestart
  import opened SystemRecovery

  // ---- Restarts -------------------------------------------------------------

  /** The process opens the store again and finds `m`. What calls in progress had still to do is gone; what was done
      stays done. */
  function Restarted(last: Sys, m: Store.State, written: map<string, seq<OperationalSnapshot>>): Sys {
    last.(st := m, exports := multiset{}, reviewing := multiset{}, processing := multiset{}, found := [], jobs := [],
          written := written)
  }

  /** Each part that is found is that of some moment; the history of the snapshots is that of the moment of theirs. */
  ghost predicate Restarts(past: seq<Sys>, s': Sys)
    requires past != []
  {
    && Patched(s'.st, StatesOf(past))
    && exists i :: 0 <= i < |past| && s'.st.opSnapshots == past[i].st.opSnapshots
         && s' == Restarted(past[|past| - 1], s'.st, past[i].written)
  }

  datatype Move = Take(step: Step) | Restart

  ghost predicate Moves(c: Config, past: seq<Sys>, move: Move, s': Sys)
    requires past != []
  {
    match move
    case Take(step) => Next(c, past[|past| - 1], step, s')
    case Restart => Restarts(past, s')
  }

  /** A run with any number of restarts. */
  ghost predicate GoesOn(c: Config, trace: seq<Sys>, moves: seq<Move>) {
    && |trace| == |moves| + 1 && trace[0] == START
    && forall k :: 0 <= k < |moves| ==> Moves(c, trace[..k + 1], moves[k], trace[k + 1])
  }

  // ---- What such runs keep --------------------------------------------------

  ghost predicate TenantPartsOk(c: Config, s: Sys, t: string) {
    && ItemsOk(c, s.owner, t, Rows(s.st.evidence, t))
    && ListOk(Rows(s.st.issues, t), s.drawn)
    && Rows(s.st.opSnapshots, t) == StoredAfter(Rows(s.written, t))
  }

  /** The invariants that speak of one part. */
  ghost predicate PartsOk(c: Config, s: Sys) {
    (forall t :: TenantPartsOk(c, s, t)) && s.owner.Keys <= s.drawn
  }

  /** Identifiers stay drawn, and stay with their tenants. */
  ghost predicate Draws(s: Sys, s': Sys) {
    s.drawn <= s'.drawn && OwnersStay(s.owner, s'.owner)
  }

  lemma HistoryStep(c: Config, s: Sys, step: Step, s': Sys, t: string)
    requires Next(c, s, step, s') && Rows(s.st.opSnapshots, t) == StoredAfter(Rows(s.written, t))
    ensures Rows(s'.st.opSnapshots, t) == StoredAfter(Rows(s'.written, t))
  {
    hide WithSnapshot;
    if step.WriteSnapshot? {
      var history := Rows(s.written, t);
      assert (history + [step.snap])[..|history|] == history;
    } else {
      SnapshotsUntouched(c, s, step, s');
    }
  }

  lemma SnapshotsUntouched(c: Config, s: Sys, step: Step, s': Sys)
    requires Next(c, s, step, s') && !step.WriteSnapshot?
    ensures s'.st.opSnapshots == s.st.opSnapshots && s'.written == s.written
  {
    hide Reached, MilestonesAt;
    if !RunsOfHistory.TouchesHistory(step) {
      hide Next;
      RunsOfHistory.HistoryUntouched(c, s, step, s');
    }
  }

  lemma StepKeepsParts(c: Config, s: Sys, step: Step, s': Sys)
    requires PartsOk(c, s) && Next(c, s, step, s')
    ensures PartsOk(c, s') && Draws(s, s')
  {
    hide Next, ItemsOk, ListOk, StoredAfter, Rows, OwnersStay;
    forall t ensures TenantPartsOk(c, s', t) {
      assert TenantPartsOk(c, s, t);
      ItemsKept(c, s, step, s', t);
      ListKept(c, s, step, s', t);
      HistoryStep(c, s, step, s', t);
    }
    DrawnKept(c, s, step, s');
    OwnersKept(c, s, step, s');
  }

  lemma DrawsOn(a: Sys, b: Sys, d: Sys)
    requires Draws(a, b) && Draws(b, d)
    ensures Draws(a, d)
  {
  }

  lemma ListStays(issues: seq<Issue>, drawn: set<string>, drawn': set<string>)
    requires ListOk(issues, drawn) && drawn <= drawn'
    ensures ListOk(issues, drawn')
  {
  }

  lemma ItemsStay(c: Config, owner: map<string, string>, owner': map<string, string>, t: string, rows: seq<Item>)
    requires ItemsOk(c, owner, t, rows) && OwnersStay(owner, owner')
    ensures ItemsOk(c, owner', t, rows)
  {
    OwnedStays(owner, owner', t, rows);
  }

  /** Every earlier moment is in order, and its identifiers are still drawn. */
  ghost predicate PastOk(c: Config, past: seq<Sys>) {
    forall i :: 0 <= i < |past| ==> PartsOk(c, past[i]) && Draws(past[i], past[|past| - 1])
  }

  lemma RestartKeepsParts(c: Config, past: seq<Sys>, s': Sys)
    requires past != [] && PastOk(c, past) && Restarts(past, s')
    ensures PartsOk(c, s') && Draws(past[|past| - 1], s')
  {
    hide ItemsOk, ListOk, StoredAfter, Rows, OwnersStay, Patched;
    var last := past[|past| - 1];
    var i :| 0 <= i < |past| && s'.st.opSnapshots == past[i].st.opSnapshots
      && s' == Restarted(last, s'.st, past[i].written);
    SameDraws(last, s');
    var a := PartMoment(past, s'.st, EVIDENCE);
    var b := PartMoment(past, s'.st, ISSUES);
    forall t ensures TenantPartsOk(c, s', t) {
      assert TenantPartsOk(c, past[i], t) && TenantPartsOk(c, past[a], t) && TenantPartsOk(c, past[b], t);
      ItemsStay(c, past[a].owner, last.owner, t, Rows(past[a].st.evidence, t));
      ListStays(Rows(past[b].st.issues, t), past[b].drawn, last.drawn);
    }
    assert PartsOk(c, last);
  }

  lemma SameDraws(s: Sys, s': Sys)
    requires s'.drawn == s.drawn && s'.owner == s.owner
    ensures Draws(s, s')
  {
  }

  lemma PastGrows(c: Config, past: seq<Sys>, s': Sys)
    requires past != [] && PastOk(c, past) && PartsOk(c, s') && Draws(past[|past| - 1], s')
    ensures PastOk(c, past + [s'])
  {
    hide PartsOk, Draws;
    var next := past + [s'];
    SameDraws(s', s');
    forall i | 0 <= i < |next| ensures PartsOk(c, next[i]) && Draws(next[i], next[|next| - 1]) {
      if i < |past| {
        DrawsOn(past[i], past[|past| - 1], s');
      }
    }
  }

  lemma {:induction false} RestartsKeepPast(c: Config, trace: seq<Sys>, moves: seq<Move>, n: nat)
    requires GoesOn(c, trace, moves) && n <= |moves|
    ensures PastOk(c, trace[..n + 1])
  {
    hide Next, PartsOk, Draws, Restarts, PastOk;
    if n == 0 {
      PartsAtStart(c);
      assert trace[..1] == [START];
    } else {
      var past := trace[..n];
      RestartsKeepPast(c, trace, moves, n - 1);
      var last, s' := past[n - 1], trace[n];
      assert Moves(c, trace[..n - 1 + 1], moves[n - 1], trace[n - 1 + 1]);
      LastOk(c, past);
      if moves[n - 1].Take? {
        StepKeepsParts(c, last, moves[n - 1].step, s');
      } else {
        RestartKeepsParts(c, past, s');
      }
      PastGrows(c, past, s');
      assert trace[..n + 1] == past + [s'];
    }
  }

  lemma LastOk(c: Config, past: seq<Sys>)
    requires past != [] && PastOk(c, past)
    ensures PartsOk(c, past[|past| - 1])
  {
  }

  lemma PartsAtStart(c: Config)
    ensures PastOk(c, [START])
  {
  }

  /** Main result: whatever restarts come in between, and whatever parts each of them finds, every state of the run has
      items that are valid, of their tenant, normal, within the limit and with identifiers of their own, at most one
      open issue of a kind, and snapshots that are the newest ninety last-of-day ones of a history. */
  lemma RestartsKeepParts(c: Config, trace: seq<Sys>, moves: seq<Move>, n: nat)
    requires GoesOn(c, trace, moves) && n <= |moves|
    ensures PartsOk(c, trace[n])
  {
    hide Moves, PartsOk, Draws;
    RestartsKeepPast(c, trace, moves, n);
    LastOk(c, trace[..n + 1]);
  }

  /** No identifier is given to two items, of whatever tenants, however often the run was cut short. */
  lemma RestartsKeepItemIDs(c: Config, trace: seq<Sys>, moves: seq<Move>, n: nat, t: string, i: nat, u: string, j: nat)
    requires GoesOn(c, trace, moves) && n <= |moves|
    requires i < |Rows(trace[n].st.evidence, t)| && j < |Rows(trace[n].st.evidence, u)|
             && Rows(trace[n].st.evidence, t)[i].id == Rows(trace[n].st.evidence, u)[j].id
    ensures t == u && i == j
  {
    hide Moves, Rows, StoredAfter, ListOk, EvidenceService.RowsOk;
    RestartsKeepParts(c, trace, moves, n);
    assert TenantPartsOk(c, trace[n], t) && TenantPartsOk(c, trace[n], u);
  }

  // ---- Payments after a restart ---------------------------------------------

  function Logged(s: Sys, eventID: string): nat {
    Count(s.st.auditLogs, IsPayment(eventID))
  }

  lemma {:induction false} ExcessStays(c: Config, trace: seq<Sys>, steps: seq<Step>, n: nat, eventID: string)
    requires AreSteps(c, trace, steps) && n <= |steps|
    ensures Excess(trace[n], eventID) == Excess(trace[0], eventID)
    ensures eventID in trace[0].st.stripeEvents ==> eventID in trace[n].st.stripeEvents
  {
    hide Next, Excess;
    if n > 0 {
      ExcessStays(c, trace, steps, n - 1, eventID);
      StepKeepsExcess(c, trace[n - 1], steps[n - 1], trace[n], eventID);
      StripeGrows(c, trace[n - 1], steps[n - 1], trace[n]);
    }
  }

  lemma StripeGrows(c: Config, s: Sys, step: Step, s': Sys)
    requires Next(c, s, step, s')
    ensures s.st.stripeEvents <= s'.st.stripeEvents
  {
    hide Reached, MilestonesAt, ReminderEntry, BillingService.StripeEntry, Without, HasItem, Selectable;
    if !TouchesMarks(step) {
      hide Next;
      MarksUntouched(c, s, step, s');
    }
  }

  /** From a restart on: an event that was found marked and not logged never is, one that was found marked and logged
      is not logged again, and one that was found neither is logged once for its mark. */
  lemma PaymentsGoOn(c: Config, trace: seq<Sys>, steps: seq<Step>, n: nat, eventID: string)
    requires AreSteps(c, trace, steps) && n <= |steps| && trace[0].processing == multiset{}
    ensures var marked, logged := eventID in trace[0].st.stripeEvents, Logged(trace[0], eventID);
            && (marked ==> Logged(trace[n], eventID) <= logged)
            && (!marked && logged == 0 ==> Logged(trace[n], eventID) + trace[n].processing[eventID]
                                           == One(eventID in trace[n].st.stripeEvents))
  {
    hide Next, Count, IsPayment;
    ExcessStays(c, trace, steps, n, eventID);
  }

  /** And one that was found logged and not marked is logged a second time when it is delivered again. */
  lemma LostMarkLogsTwice(c: Config, s: Sys, eventID: string, typ: string, now: Instant) returns (s1: Sys, s2: Sys)
    requires eventID !in s.st.stripeEvents && Logged(s, eventID) == 1
    ensures Next(c, s, MarkPayment(eventID), s1) && Next(c, s1, LogPayment(eventID, typ, now), s2)
    ensures Logged(s2, eventID) == 2
  {
    hide Count, IsPayment, BillingService.StripeEntry;
    s1 := s.(st := s.st.(stripeEvents := s.st.stripeEvents + {eventID}),
             processing := s.processing + multiset{eventID});
    var e := BillingService.StripeEntry(eventID, typ, now);
    s2 := s1.(st := s1.st.(auditLogs := s1.st.auditLogs + [e]), processing := s1.processing - multiset{eventID});
    PaymentEntry(eventID, typ, now, eventID);
    CountSnoc(s.st.auditLogs, e, IsPayment(eventID));
  }

  lemma {:induction false} StripeStays(c: Config, trace: seq<Sys>, steps: seq<Step>, j: nat, k: nat)
    requires AreSteps(c, trace, steps) && j <= k <= |steps|
    ensures trace[j].st.stripeEvents <= trace[k].st.stripeEvents
    decreases k
  {
    hide Next;
    if j < k {
      StripeStays(c, trace, steps, j, k - 1);
      StripeGrows(c, trace[k - 1], steps[k - 1], trace[k]);
    }
  }

  /** This does not happen: the source logs an event only after the call that marked it returned nil, and then every
      restart finds the mark. */
  lemma MarkIsDurable(codec: FileStore.Codec<Part>, sys: FileStore.System<Part>, evs: seq<FileStore.Event<Part>>,
          c: Config, trace: seq<Sys>, steps: seq<Step>, k: nat, eventID: string)
    returns (m: Store.State)
    requires FileStore.Faithful(codec) && FileStore.SystemOk(codec, sys) && FileStore.EventsOk(evs)
             && Carries(codec, sys, evs, StatesOf(trace)) && AreSteps(c, trace, steps)
    requires k < |evs| == |steps| && steps[k] == MarkPayment(eventID)
    requires FileStore.Acknowledged(codec, FileStore.Run(codec, sys, evs[..k]), evs[k])
    ensures var loaded := FileStore.LoadOf(codec, FileStore.Run(codec, sys, evs).finals);
            loaded.Some? && Represents(loaded.value, m) && eventID in m.stripeEvents
  {
    hide FileStore.PARTS, FileStore.LoadOf, FileStore.Run, FileStore.Whole, FileStore.Faithful, Carries, Represents,
      Patched, FileStore.Acknowledged, FileStore.EventOk;
    var later := trace[k + 1..];
    m := RestartIsNotBefore(codec, sys, evs, StatesOf(trace), k);
    assert StatesOf(trace)[k + 1..] == StatesOf(later);
    var i := PartMoment(later, m, STRIPE);
    StripeStays(c, trace, steps, k + 1, k + 1 + i);
    MarkMarks(c, trace[k], eventID, trace[k + 1]);
  }

  lemma MarkMarks(c: Config, s: Sys, eventID: string, s': Sys)
    requires Next(c, s, MarkPayment(eventID), s')
    ensures eventID in s'.st.stripeEvents
  {
  }

  // ---- Reminders after a restart --------------------------------------------

  /** The mark of every attempt was found. */
  predicate AttemptsMarked(s: Sys) {
    forall i :: 0 <= i < |s.attempts| ==> KeyOfJob(s.attempts[i]) in s.st.reminderSent
  }

  predicate AttemptsDiffer(s: Sys) {
    forall i, j :: 0 <= i < j < |s.attempts| ==> KeyOfJob(s.attempts[i]) != KeyOfJob(s.attempts[j])
  }

  lemma {:induction false} DistinctCount(keys: seq<Store.ReminderKey>, key: Store.ReminderKey)
    requires forall i, j :: 0 <= i < j < |keys| ==> keys[i] != keys[j]
    ensures multiset(keys)[key] == One(key in keys)
  {
    if keys != [] {
      var n := |keys| - 1;
      DistinctCount(keys[..n], key);
      assert keys == keys[..n] + [keys[n]];
    }
  }

  lemma MarkedAreTakenOnce(s: Sys)
    requires s.jobs == [] && AttemptsMarked(s) && AttemptsDiffer(s)
    ensures TakenAtMostOnce(s)
  {
    hide KeyOfJob;
    var keys := KeysOf(s.attempts);
    forall key ensures Taken(s, key) <= One(key in s.st.reminderSent) {
      DistinctCount(keys, key);
      assert KeysOf(s.jobs) == [];
    }
  }

  /** From a restart that found the mark of every attempt, no item is tried again for one day, if no checks overlap. */
  lemma AttemptsStayOnce(c: Config, trace: seq<Sys>, steps: seq<Step>, n: nat)
    requires AreSteps(c, trace, steps) && n <= |steps| && NoOverlap(trace, steps, n)
    requires trace[0].found == [] && trace[0].jobs == [] && AttemptsDiffer(trace[0]) && AttemptsMarked(trace[0])
    ensures NoSecondAttempt(trace[n])
  {
    hide Next, NoOverlap, AttemptsDiffer, AttemptsMarked, NoSecondAttempt, TakenAtMostOnce;
    MarkedAreTakenOnce(trace[0]);
    AttemptsGoOn(c, trace, steps, n);
  }

  /** From a restart that lost the mark of an attempt, an item with that key that is due is tried a second time by one
      selection that overlaps with no other. */
  lemma LostMarkSecondAttempt(c: Config, s: Sys, k: nat, it: Item, now: Instant)
    returns (trace: seq<Sys>, steps: seq<Step>)
    requires s.found == [] && s.jobs == [] && k < |s.attempts|
    requires KeyOfJob(s.attempts[k]) !in s.st.reminderSent && KeyFor(it, now) == KeyOfJob(s.attempts[k])
    requires HasItem(s.st.evidence, it) && Evidence.ReminderDue(it, now)
    ensures AreSteps(c, trace, steps) && trace[0] == s && |steps| == 3 && NoOverlap(trace, steps, 3)
    ensures !NoSecondAttempt(trace[3])
  {
    hide HasItem, Selectable, DayOf, ReminderEntry, Next, KeyOfJob;
    var job := Job(it, DayOf(now));
    var s1 := CheckNext(c, s, it, now);
    var s2 := MarkNext(c, s1, job);
    var s3 := SendNext(c, s2, job, now);
    trace := [s, s1, s2, s3];
    steps := [CheckReminder(it, now), MarkReminder(0), SendReminder(0, true, now)];
    assert s3.attempts[k] == s.attempts[k] && s3.attempts[|s.attempts|] == job;
  }

  lemma CheckNext(c: Config, s: Sys, it: Item, now: Instant) returns (s': Sys)
    requires HasItem(s.st.evidence, it) && Evidence.ReminderDue(it, now) && KeyFor(it, now) !in s.st.reminderSent
    requires s.found == []
    ensures Next(c, s, CheckReminder(it, now), s') && s' == s.(found := [Job(it, DayOf(now))])
    ensures KeyOfJob(Job(it, DayOf(now))) == KeyFor(it, now)
  {
    hide HasItem, Evidence.ReminderDue, DayOf;
    s' := s.(found := [Job(it, DayOf(now))]);
  }

  lemma MarkNext(c: Config, s: Sys, job: Job) returns (s': Sys)
    requires s.found == [job] && s.jobs == []
    ensures Next(c, s, MarkReminder(0), s') && s'.found == [] && s'.jobs == [job] && s'.attempts == s.attempts
  {
    hide KeyOfJob;
    s' := s.(st := s.st.(reminderSent := s.st.reminderSent + {KeyOfJob(job)}), found := [], jobs := [job]);
  }

  lemma SendNext(c: Config, s: Sys, job: Job, now: Instant) returns (s': Sys)
    requires s.jobs == [job]
    ensures Next(c, s, SendReminder(0, true, now), s') && s'.attempts == s.attempts + [job]
  {
    hide ReminderEntry;
    s' := s.(st := s.st.(auditLogs := s.st.auditLogs + [ReminderEntry(job.item, true, now)]), jobs := [],
             attempts := s.attempts + [job]);
  }
}

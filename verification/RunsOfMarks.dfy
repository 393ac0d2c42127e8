/** What every run keeps about reminders, payment events and the audit entries they leave. */
module RunsOfMarks {
  import opened Records
  import opened Sorting
  import Store
  import AuditService
  import opened BillingService
  import opened RemindersService
  import opened SystemRuns

  // ---- Reminders ------------------------------------------------------------

  function KeysOf(jobs: seq<Job>): seq<Store.ReminderKey> {
    seq(|jobs|, k requires 0 <= k < |jobs| => KeyOfJob(jobs[k]))
  }

  function IsReminder(e: AuditEntry): bool {
    e.action == REMINDER_ACTION
  }

  /** How often a key was taken: by reminders that wait to be sent, and by those that were. */
  function Taken(s: Sys, key: Store.ReminderKey): nat {
    multiset(KeysOf(s.jobs))[key] + multiset(KeysOf(s.attempts))[key]
  }

  /** Exactly the marked keys were taken. */
  ghost predicate MarksOk(s: Sys) {
    forall key :: key in s.st.reminderSent <==> Taken(s, key) > 0
  }

  /** The entry reports an attempt for this item. */
  predicate Reports(e: AuditEntry, j: Job) {
    e.tenantID == j.item.tenantID && e.entityType == "evidence_item" && e.entityID == j.item.id
  }

  /** The audit log has one reminder entry for each attempt, in order. */
  ghost predicate AttemptsLogged(s: Sys) {
    var entries := Filter(s.st.auditLogs, IsReminder);
    && |entries| == |s.attempts|
    && forall k :: 0 <= k < |entries| ==> Reports(entries[k], s.attempts[k])
  }

  // ---- Payments -------------------------------------------------------------

  function IsPayment(eventID: string): AuditEntry -> bool {
    (e: AuditEntry) => e.action == STRIPE_ACTION && e.entityID == eventID
  }

  /** How often the event is logged or about to be, beyond what its mark accounts for. */
  function Excess(s: Sys, eventID: string): int {
    Count(s.st.auditLogs, IsPayment(eventID)) + s.processing[eventID] - One(eventID in s.st.stripeEvents)
  }

  /** A marked payment event is logged once, or its call is between its two writes; others are not logged. */
  ghost predicate PaymentsOk(s: Sys) {
    forall eventID :: Excess(s, eventID) == 0
  }

  // ---- Steps ----------------------------------------------------------------

  predicate TouchesMarks(step: Step) {
    || step.MarkPayment? || step.LogPayment? || step.CheckReminder? || step.MarkReminder? || step.SendReminder?
    || step.LogOther?
  }

  lemma MarksUntouched(c: Config, s: Sys, step: Step, s': Sys)
    requires Next(c, s, step, s') && !TouchesMarks(step)
    ensures s'.st.auditLogs == s.st.auditLogs && s'.st.reminderSent == s.st.reminderSent
            && s'.st.stripeEvents == s.st.stripeEvents
    ensures s'.found == s.found && s'.jobs == s.jobs && s'.attempts == s.attempts && s'.processing == s.processing
  {
  }

  lemma KeysOfConcat(a: seq<Job>, b: seq<Job>)
    ensures KeysOf(a + b) == KeysOf(a) + KeysOf(b)
  {
  }

  /** Sending moves a key from the waiting ones to the tried ones. */
  lemma SendMovesKey(jobs: seq<Job>, attempts: seq<Job>, k: nat)
    requires k < |jobs|
    ensures multiset(KeysOf(jobs)) + multiset(KeysOf(attempts))
            == multiset(KeysOf(Without(jobs, k))) + multiset(KeysOf(attempts + [jobs[k]]))
  {
    hide KeysOf;
    KeysOfConcat(jobs[..k], jobs[k + 1..]);
    KeysOfConcat(jobs[..k], [jobs[k]]);
    KeysOfConcat(jobs[..k] + [jobs[k]], jobs[k + 1..]);
    assert jobs == jobs[..k] + [jobs[k]] + jobs[k + 1..];
    KeysOfConcat(attempts, [jobs[k]]);
  }

  /** The step marks this key. */
  predicate MarksKey(s: Sys, step: Step, key: Store.ReminderKey) {
    step.MarkReminder? && step.k < |s.found| && KeyOfJob(s.found[step.k]) == key
  }

  /** A key is taken once for each time it is marked, and never given back. */
  lemma StepTakes(c: Config, s: Sys, step: Step, s': Sys, key: Store.ReminderKey)
    requires Next(c, s, step, s')
    ensures Taken(s', key) == Taken(s, key) + One(MarksKey(s, step, key))
    ensures key in s'.st.reminderSent <==> key in s.st.reminderSent || MarksKey(s, step, key)
  {
    hide KeysOf, Without, AuditService.LogStep, MarkStep, Next;
    if step.MarkReminder? {
      MarkTakes(c, s, s', step.k, key);
    } else if step.SendReminder? {
      SendTakes(c, s, s', step.k, step.delivered, step.now, key);
    } else if step.CheckReminder? {
      CheckTakes(c, s, step, s');
    } else if TouchesMarks(step) {
      OthersTake(c, s, step, s');
    } else {
      MarksUntouched(c, s, step, s');
    }
  }

  lemma MarkTakes(c: Config, s: Sys, s': Sys, k: nat, key: Store.ReminderKey)
    requires Next(c, s, MarkReminder(k), s')
    ensures k < |s.found|
    ensures Taken(s', key) == Taken(s, key) + One(KeyOfJob(s.found[k]) == key)
    ensures key in s'.st.reminderSent <==> key in s.st.reminderSent || KeyOfJob(s.found[k]) == key
  {
    hide KeysOf, KeyOfJob, Without;
    KeysOfConcat(s.jobs, [s.found[k]]);
    KeyOfOne(s.found[k]);
  }

  lemma KeyOfOne(j: Job)
    ensures KeysOf([j]) == [KeyOfJob(j)]
  {
  }

  lemma SendTakes(c: Config, s: Sys, s': Sys, k: nat, delivered: bool, now: Instant, key: Store.ReminderKey)
    requires Next(c, s, SendReminder(k, delivered, now), s')
    ensures Taken(s', key) == Taken(s, key) && s'.st.reminderSent == s.st.reminderSent
  {
    hide KeysOf, Without, ReminderEntry;
    SendMovesKey(s.jobs, s.attempts, k);
    assert Taken(s', key) == (multiset(KeysOf(s'.jobs)) + multiset(KeysOf(s'.attempts)))[key];
    assert Taken(s, key) == (multiset(KeysOf(s.jobs)) + multiset(KeysOf(s.attempts)))[key];
  }

  lemma OthersTake(c: Config, s: Sys, step: Step, s': Sys)
    requires Next(c, s, step, s') && (step.MarkPayment? || step.LogPayment? || step.LogOther?)
    ensures s'.jobs == s.jobs && s'.attempts == s.attempts && s'.st.reminderSent == s.st.reminderSent
  {
    hide StripeEntry;
  }

  lemma CheckTakes(c: Config, s: Sys, step: Step, s': Sys)
    requires Next(c, s, step, s') && step.CheckReminder?
    ensures s'.jobs == s.jobs && s'.attempts == s.attempts && s'.st.reminderSent == s.st.reminderSent
  {
    hide Selectable, HasItem;
  }

  lemma StepKeepsMarks(c: Config, s: Sys, step: Step, s': Sys)
    requires MarksOk(s) && Next(c, s, step, s')
    ensures MarksOk(s')
  {
    hide Next, Taken, MarksKey;
    forall key ensures key in s'.st.reminderSent <==> Taken(s', key) > 0 {
      StepTakes(c, s, step, s', key);
    }
  }

  lemma SendKeepsLogged(s: Sys, s': Sys, j: Job, delivered: bool, now: Instant)
    requires AttemptsLogged(s) && s'.attempts == s.attempts + [j]
             && AuditService.LogStep(s.st, s'.st, ReminderEntry(j.item, delivered, now))
    ensures AttemptsLogged(s')
  {
    hide Metadata;
    FilterSnoc(s.st.auditLogs, ReminderEntry(j.item, delivered, now), IsReminder);
  }

  lemma OtherKeepsLogged(s: Sys, s': Sys, e: AuditEntry)
    requires AttemptsLogged(s) && s'.attempts == s.attempts && AuditService.LogStep(s.st, s'.st, e) && !IsReminder(e)
    ensures AttemptsLogged(s')
  {
  }

  lemma PaymentEntry(eventID: string, typ: string, now: Instant, id: string)
    ensures IsPayment(id)(StripeEntry(eventID, typ, now)) <==> id == eventID
  {
  }

  lemma LogKeepsExcess(c: Config, s: Sys, s': Sys, eventID: string, typ: string, now: Instant, id: string)
    requires Next(c, s, LogPayment(eventID, typ, now), s')
    ensures Excess(s', id) == Excess(s, id)
  {
    hide IsPayment, Count, StripeEntry;
    PaymentEntry(eventID, typ, now, id);
    CountSnoc(s.st.auditLogs, StripeEntry(eventID, typ, now), IsPayment(id));
  }

  lemma OtherKeepsExcess(s: Sys, s': Sys, e: AuditEntry, id: string)
    requires AuditService.LogStep(s.st, s'.st, e) && s'.processing == s.processing && e.action != STRIPE_ACTION
    ensures Excess(s', id) == Excess(s, id)
  {
    hide Count;
    CountSnoc(s.st.auditLogs, e, IsPayment(id));
  }

  lemma MarkKeepsExcess(c: Config, s: Sys, s': Sys, eventID: string, id: string)
    requires Next(c, s, MarkPayment(eventID), s')
    ensures Excess(s', id) == Excess(s, id)
  {
    hide Count, IsPayment;
  }

  lemma ActionsDiffer()
    ensures REMINDER_ACTION != STRIPE_ACTION
  {
  }

  lemma SendLogs(c: Config, s: Sys, s': Sys, k: nat, delivered: bool, now: Instant)
    requires Next(c, s, SendReminder(k, delivered, now), s')
    ensures k < |s.jobs| && s'.attempts == s.attempts + [s.jobs[k]] && s'.processing == s.processing
    ensures AuditService.LogStep(s.st, s'.st, ReminderEntry(s.jobs[k].item, delivered, now))
  {
    hide Metadata, Without;
  }

  lemma LoggedOther(c: Config, s: Sys, step: Step, s': Sys) returns (e: AuditEntry)
    requires Next(c, s, step, s') && (step.LogPayment? || step.LogOther?)
    ensures AuditService.LogStep(s.st, s'.st, e) && s'.attempts == s.attempts && !IsReminder(e)
    ensures step.LogOther? ==> s'.processing == s.processing && e.action != STRIPE_ACTION
  {
    hide AuditService.LogStep;
    ActionsDiffer();
    e := if step.LogPayment? then StripeEntry(step.eventID, step.typ, step.now) else step.entry;
  }

  lemma QuietStep(c: Config, s: Sys, step: Step, s': Sys)
    requires Next(c, s, step, s') && !step.SendReminder? && !step.LogPayment? && !step.LogOther?
    ensures s'.attempts == s.attempts && s'.st.auditLogs == s.st.auditLogs
    ensures !step.MarkPayment? ==> s'.processing == s.processing && s'.st.stripeEvents == s.st.stripeEvents
  {
    hide Selectable, HasItem, Without;
    if !TouchesMarks(step) {
      hide Next;
      MarksUntouched(c, s, step, s');
    }
  }

  /** No step changes how often a payment event is logged beyond its mark, whatever the state. */
  lemma StepKeepsExcess(c: Config, s: Sys, step: Step, s': Sys, id: string)
    requires Next(c, s, step, s')
    ensures Excess(s', id) == Excess(s, id)
  {
    hide Next, Count, IsPayment, AuditService.LogStep, ReminderEntry;
    if step.MarkPayment? {
      MarkKeepsExcess(c, s, s', step.eventID, id);
    } else if step.LogPayment? {
      LogKeepsExcess(c, s, s', step.eventID, step.typ, step.now, id);
    } else if step.LogOther? {
      var e := LoggedOther(c, s, step, s');
      OtherKeepsExcess(s, s', e, id);
    } else if step.SendReminder? {
      SendLogs(c, s, s', step.k, step.delivered, step.now);
      ReminderIsNoPayment(s.jobs[step.k].item, step.delivered, step.now);
      OtherKeepsExcess(s, s', ReminderEntry(s.jobs[step.k].item, step.delivered, step.now), id);
    } else {
      QuietStep(c, s, step, s');
    }
  }

  lemma ReminderIsNoPayment(it: Item, delivered: bool, now: Instant)
    ensures ReminderEntry(it, delivered, now).action != STRIPE_ACTION
  {
    ActionsDiffer();
  }

  lemma SameLogged(s: Sys, s': Sys)
    requires AttemptsLogged(s) && s'.attempts == s.attempts && s'.st.auditLogs == s.st.auditLogs
    ensures AttemptsLogged(s')
  {
  }

  lemma StepKeepsLogged(c: Config, s: Sys, step: Step, s': Sys)
    requires AttemptsLogged(s) && Next(c, s, step, s')
    ensures AttemptsLogged(s')
  {
    hide Next, AttemptsLogged, AuditService.LogStep, IsReminder;
    if step.SendReminder? {
      SendLogs(c, s, s', step.k, step.delivered, step.now);
      SendKeepsLogged(s, s', s.jobs[step.k], step.delivered, step.now);
    } else if step.LogPayment? || step.LogOther? {
      var e := LoggedOther(c, s, step, s');
      OtherKeepsLogged(s, s', e);
    } else {
      QuietStep(c, s, step, s');
      SameLogged(s, s');
    }
  }

  ghost predicate AllMarksOk(s: Sys) {
    MarksOk(s) && AttemptsLogged(s) && PaymentsOk(s)
  }

  /** Every step keeps the invariant. */
  lemma MarksKept(c: Config, s: Sys, step: Step, s': Sys)
    requires AllMarksOk(s) && Next(c, s, step, s')
    ensures AllMarksOk(s')
  {
    hide Next, MarksOk, AttemptsLogged, Excess;
    StepKeepsMarks(c, s, step, s');
    StepKeepsLogged(c, s, step, s');
    forall id ensures Excess(s', id) == 0 {
      StepKeepsExcess(c, s, step, s', id);
    }
  }

  lemma MarksAtStart()
    ensures AllMarksOk(START)
  {
  }
}

/** Runs of the whole system: the atomic writes of all services on the one state, interleaved in any way. */
module SystemRuns {
  import opened Records
  import References
  import Store
  import opened EvidenceService
  import opened OperationsService
  import AdjudicationService
  import AuditService
  import BillingService
  import opened RemindersService

  // ---- The state machine ----------------------------------------------------

  datatype Config = Config(limit: int, fold: References.Fold)

  /** An item that a reminder run selected on a day. */
  datatype Job = Job(item: Item, day: int)

  /** An export that has read the tenant's items. */
  datatype Export = Export(tenantID: string, manifest: seq<string>)

  /** The stored state, what calls in progress have still to do, and what was done so far:
      `drawn` holds every identifier drawn, `owner` the tenant for which an item's identifier was drawn,
      `reviewing` a tenant for each stored review whose event is not logged yet,
      `processing` the payment events that are marked and not logged yet,
      `found` the reminders that a selection found free and has not marked yet, `jobs` those marked and not sent yet,
      `attempts` the reminders sent, and `written` each tenant's operational snapshots, oldest first. */
  datatype Sys = Sys(
    st: Store.State, drawn: set<string>, owner: map<string, string>, exports: multiset<Export>,
    reviewing: multiset<string>, processing: multiset<string>, found: seq<Job>, jobs: seq<Job>, attempts: seq<Job>,
    written: map<string, seq<OperationalSnapshot>>)

  const START := Sys(Store.EMPTY_STATE, {}, map[], multiset{}, multiset{}, multiset{}, [], [], [], map[])

  datatype Step =
    | CreateItem(t: string, it: Item, now: Instant, stamp: Instant, newID: string)
    | UpdateItem(t: string, id: string, it: Item, now: Instant, stamp: Instant)
    | Attach(t: string, file: EvidenceFile, stamp: Instant)
    | ReadForExport(t: string)
    | RecordExport(pending: Export, newID: string, stamp: Instant, hash: string)
    | WriteReview(t: string, review: ReviewSnapshot)
    | LogReview(t: string, message: string, now: Instant)
    | LogEvent(t: string, event: OperationalEvent)
    | WriteReport(t: string, report: ReviewReport)
    | WriteSnapshot(t: string, snap: OperationalSnapshot)
    | Ensure(t: string, evidenceID: string, typ: string, now: Instant, newID: string)
    | Resolve(t: string, issueID: string, operator: string, reason: string, now: Instant, newID: string)
    | MarkPayment(eventID: string)
    | LogPayment(eventID: string, typ: string, now: Instant)
    | CheckReminder(it: Item, now: Instant)
    | MarkReminder(k: nat)
    | SendReminder(k: nat, delivered: bool, now: Instant)
    | LogOther(entry: AuditEntry)

  function KeyOfJob(j: Job): Store.ReminderKey {
    Store.ReminderKey(j.item.id, j.day)
  }

  function Without(jobs: seq<Job>, k: nat): seq<Job>
    requires k < |jobs|
  {
    jobs[..k] + jobs[k + 1..]
  }

  /** One atomic step. The two writes of one call are two steps; an identifier that is drawn is a new one. */
  ghost predicate Next(c: Config, s: Sys, step: Step, s': Sys) {
    match step
    case CreateItem(t, it, now, stamp, newID) =>
      && newID !in s.drawn
      && CreateStep(s.st, s'.st, t, it, c.limit, now, stamp, newID, c.fold)
      && s' == s.(st := s'.st, drawn := s.drawn + {newID}, owner := s.owner[newID := t])
    case UpdateItem(t, id, it, now, stamp) =>
      && UpdateStep(s.st, s'.st, t, id, it, now, stamp, c.fold)
      && s' == s.(st := s'.st)
    case Attach(t, file, stamp) =>
      && AttachStep(s.st, s'.st, t, file, stamp)
      && s' == s.(st := s'.st)
    case ReadForExport(t) =>
      s' == s.(exports := s.exports + multiset{Export(t, ManifestOf(Rows(s.st.evidence, t)))})
    case RecordExport(e, newID, stamp, hash) =>
      && e in s.exports && newID !in s.drawn
      && ProofpackStep(s.st, s'.st, e.tenantID, Proofpack(newID, stamp, e.manifest, hash))
      && s' == s.(st := s'.st, drawn := s.drawn + {newID}, exports := s.exports - multiset{e})
    case WriteReview(t, review) =>
      && ReviewStep(s.st, s'.st, t, review)
      && s' == s.(st := s'.st, reviewing := s.reviewing + multiset{t})
    case LogReview(t, message, now) =>
      && t in s.reviewing
      && EventStep(s.st, s'.st, t, OperationalEvent(t, REVIEW_EVENT, message, "", now))
      && s' == s.(st := s'.st, reviewing := s.reviewing - multiset{t})
    case LogEvent(t, event) =>
      && event.tenantID == t && event.typ != REVIEW_EVENT
      && EventStep(s.st, s'.st, t, event)
      && s' == s.(st := s'.st)
    case WriteReport(t, report) =>
      && ReportStep(s.st, s'.st, t, report)
      && s' == s.(st := s'.st)
    case WriteSnapshot(t, snap) =>
      && SnapshotStep(s.st, s'.st, t, snap)
      && s' == s.(st := s'.st, written := s.written[t := Rows(s.written, t) + [snap]])
    case Ensure(t, evidenceID, typ, now, newID) =>
      && newID !in s.drawn
      && AdjudicationService.EnsureStep(s.st, s'.st, t, evidenceID, typ, now, newID)
      && s' == s.(st := s'.st, drawn := s.drawn + {newID})
    case Resolve(t, issueID, operator, reason, now, newID) =>
      && newID !in s.drawn
      && AdjudicationService.ResolveStep(s.st, s'.st, t, issueID, operator, reason, now, newID)
      && s' == s.(st := s'.st, drawn := s.drawn + {newID})
    case MarkPayment(eventID) =>
      && BillingService.MarkStep(s.st, s'.st, eventID)
      && s' == s.(st := s'.st, processing := if eventID in s.st.stripeEvents then s.processing
        else s.processing + multiset{eventID})
    case LogPayment(eventID, typ, now) =>
      && eventID in s.processing
      && AuditService.LogStep(s.st, s'.st, BillingService.StripeEntry(eventID, typ, now))
      && s' == s.(st := s'.st, processing := s.processing - multiset{eventID})
    case CheckReminder(it, now) =>
      && HasItem(s.st.evidence, it) && Selectable(s.st, it, now)
      && s' == s.(found := s.found + [Job(it, DayOf(now))])
    case MarkReminder(k) =>
      && k < |s.found|
      && KeyMarkStep(s.st, s'.st, KeyOfJob(s.found[k]))
      && s' == s.(st := s'.st, found := Without(s.found, k), jobs := s.jobs + [s.found[k]])
    case SendReminder(k, delivered, now) =>
      && k < |s.jobs|
      && AuditService.LogStep(s.st, s'.st, ReminderEntry(s.jobs[k].item, delivered, now))
      && s' == s.(st := s'.st, jobs := Without(s.jobs, k), attempts := s.attempts + [s.jobs[k]])
    case LogOther(entry) =>
      && entry.action != REMINDER_ACTION && entry.action != BillingService.STRIPE_ACTION
      && AuditService.LogStep(s.st, s'.st, entry)
      && s' == s.(st := s'.st)
  }

  ghost predicate AreSteps(c: Config, trace: seq<Sys>, steps: seq<Step>) {
    && |trace| == |steps| + 1
    && forall k :: 0 <= k < |steps| ==> Next(c, trace[k], steps[k], trace[k + 1])
  }

  ghost predicate IsRun(c: Config, trace: seq<Sys>, steps: seq<Step>) {
    AreSteps(c, trace, steps) && trace[0] == START
  }
}

/** The shared in-memory state that every service writes under one lock. */
module Store {
  import opened Records

  /** A reminder mark is kept per item and UTC day. */
  datatype ReminderKey = ReminderKey(itemID: string, day: int)

  datatype State = State(
    tenants: map<string, string>,
    evidence: map<string, seq<Item>>,
    files: map<string, seq<EvidenceFile>>,
    reminderSent: set<ReminderKey>,
    proofpacks: map<string, seq<Proofpack>>,
    auditLogs: seq<AuditEntry>,
    stripeEvents: set<string>,
    reviews: map<string, seq<ReviewSnapshot>>,
    events: map<string, seq<OperationalEvent>>,
    activation: map<string, Milestones>,
    opSnapshots: map<string, seq<OperationalSnapshot>>,
    reports: map<string, seq<ReviewReport>>,
    issues: map<string, seq<Issue>>,
    adjudications: map<string, seq<Adjudication>>)

  const EMPTY_STATE := State(map[], map[], map[], {}, map[], [], {}, map[], map[], map[], map[], map[], map[], map[])

  /** `MemoryStore`: each closure passed to `Write` is one method that modifies the state under the lock. */
  class MemoryStore {
    var st: State

    constructor ()
      ensures st == EMPTY_STATE
    {
      st := EMPTY_STATE;
    }
  }

  /** One tenant's rows became `rows`; every other tenant kept its own. */
  ghost predicate RowsSet<T>(before: map<string, seq<T>>, after: map<string, seq<T>>, tenantID: string, rows: seq<T>) {
    && Rows(after, tenantID) == rows
    && forall t :: t != tenantID ==> Rows(after, t) == Rows(before, t)
  }
}

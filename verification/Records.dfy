/** Instants and the persisted records of a tenant. */
module Records {

  // ---- Time -----------------------------------------------------------------

  /** Nanoseconds since Go's zero time, in UTC. */
  type Instant = int

  const SECOND: int := 1_000_000_000
  const DAY: int := 86_400 * SECOND
  const ZERO_TIME: Instant := 0

  /** The UTC calendar day of an instant. */
  function DayOf(t: Instant): int {
    t / DAY
  }

  /** A day has 86 400 seconds of a thousand million nanoseconds; days count from the zero time, downwards as well. */
  lemma DayMeans(t: Instant, d: int)
    ensures DayOf(t) == d <==> d * 86_400_000_000_000 <= t < (d + 1) * 86_400_000_000_000
    ensures AddDays(t, d) - t == d * 86_400_000_000_000
  {
  }

  /** `t.AddDate(0, 0, n)`. */
  function AddDays(t: Instant, n: int): Instant {
    t + n * DAY
  }

  // ---- Records --------------------------------------------------------------

  datatype Option<+T> = None | Some(value: T)

  datatype Item = Item(
    id: string, tenantID: string, title: string, category: string, status: string,
    ownerName: string, ownerEmail: string, sourceFilePath: string, notes: string,
    issueDate: Option<Instant>, expiryDate: Option<Instant>, reminderDaysBefore: int,
    controlRefs: seq<string>, vendorRefs: seq<string>, riskRefs: seq<string>,
    createdAt: Instant, updatedAt: Instant)

  datatype EvidenceFile = EvidenceFile(evidenceID: string, filePath: string, contentType: string, sizeBytes: int,
    createdAt: Instant)

  datatype AuditEntry = AuditEntry(
    tenantID: string, userID: string, action: string, entityType: string, entityID: string, metadata: string,
      createdAt: Instant)

  datatype Proofpack = Proofpack(id: string, createdAt: Instant, evidenceIDs: seq<string>, hash: string)

  datatype Issue = Issue(
    id: string, tenantID: string, evidenceID: string, typ: string, createdAt: Instant,
    resolvedAt: Option<Instant>, resolvedReason: string)

  datatype Adjudication = Adjudication(
    id: string, tenantID: string, issueID: string, action: string, operator: string, reason: string, createdAt: Instant)

  datatype ReviewSnapshot = ReviewSnapshot(
    tenantID: string, generatedAt: Instant, lastReviewedAt: Instant, nextRecommendedReview: Instant,
    healthScore: int, unresolvedIssues: int, expiredEvidence: int, expiringEvidence: int,
    staleEvidence: int, missingOwners: int)

  /** `date` is the day that the source formats as text. */
  datatype OperationalSnapshot = OperationalSnapshot(
    tenantID: string, date: int, createdAt: Instant, unresolvedCount: int, expiredCount: int,
    ownerlessCount: int, staleCount: int, healthScore: int, proofpackCount: int, reviewStreak: int,
    activationPercent: int, maturityStage: string, totalEvidenceCount: int, ownersCount: int)

  datatype ReviewReport = ReviewReport(tenantID: string, id: string, generatedAt: Instant, summary: string,
    markdown: string)

  datatype OperationalEvent = OperationalEvent(tenantID: string, typ: string, message: string, entityID: string,
    createdAt: Instant)

  datatype Milestones = Milestones(
    firstEvidenceCreatedAt: Option<Instant>, firstFileUploadedAt: Option<Instant>, firstReminderRunAt: Option<Instant>,
    firstProofpackGeneratedAt: Option<Instant>, firstOperationalReviewAt: Option<Instant>,
      secondWeeklyReviewAt: Option<Instant>)

  const NO_MILESTONES := Milestones(None, None, None, None, None, None)

  /** A missing key of a Go map of slices reads as the empty slice. */
  function Rows<T>(m: map<string, seq<T>>, key: string): seq<T> {
    if key in m then m[key] else []
  }
}

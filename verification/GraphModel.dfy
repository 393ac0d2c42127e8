/** Nodes, edges and actions of the evidence graph, and the lists of them that the builder emits. */
module GraphModel {
  import opened Text
  import Slugs
  import opened Records
  import References
  import opened Evidence
  import Sorting

  // ---- Data -----------------------------------------------------------------

  /** Of the metadata only what the mapping editor reads back is modelled. */
  datatype Meta = Plain | Mappings(rawEvidenceID: string, controls: seq<string>, vendors: seq<string>,
    risks: seq<string>)

  datatype Node = Node(
    id: string, typ: string, caption: string, tenantID: string, status: string,
    createdAt: Instant, updatedAt: Instant, meta: Meta)

  /** `id` is assigned when the edge is stored. */
  datatype Edge = Edge(
    id: string, typ: string, source: string, target: string, tenantID: string, status: string, createdAt: Instant)

  datatype Action = Action(id: string, typ: string, title: string, severity: string, impact: int, targets: seq<string>)

  datatype Narrative = Narrative(scope: string, generatedAt: Instant)

  /** The operational snapshots are loaded with the rest, but no pass of the builder reads them. */
  datatype TenantData = TenantData(
    proofpacks: seq<Proofpack>, reviews: seq<ReviewSnapshot>, opSnapshots: seq<OperationalSnapshot>,
    events: seq<OperationalEvent>, reports: seq<ReviewReport>)

  const NO_DATA := TenantData([], [], [], [], [])

  /** Library text functions: the layouts `20060102T150405` and `2006-01-02`, and `strings.ToLower`. */
  datatype Formats = Formats(stamp: Instant -> string, date: Instant -> string, fold: References.Fold)

  /** Everything `Build` works on. The items, the tenant data and the narratives come from separate reads,
      so nothing relates them. */
  datatype Input = Input(
    tenantID: string, now: Instant, items: seq<Item>, data: TenantData, narratives: seq<Narrative>, formats: Formats)

  // ---- Sorting the tenant data ----------------------------------------------

  function SortTenantData(d: TenantData): TenantData {
    TenantData(
      Sorting.StableSort(d.proofpacks, PackedLater), SortReviews(d.reviews), d.opSnapshots,
      Sorting.StableSort(d.events, LoggedLater), Sorting.StableSort(d.reports, ReportedLater))
  }

  predicate PackedLater(a: Proofpack, b: Proofpack) {
    a.createdAt > b.createdAt
  }

  predicate LoggedLater(a: OperationalEvent, b: OperationalEvent) {
    a.createdAt > b.createdAt
  }

  predicate ReportedLater(a: ReviewReport, b: ReviewReport) {
    a.generatedAt > b.generatedAt
  }

  predicate ReviewedLater(a: ReviewSnapshot, b: ReviewSnapshot) {
    a.lastReviewedAt > b.lastReviewedAt
  }

  function SortReviews(rs: seq<ReviewSnapshot>): seq<ReviewSnapshot> {
    Sorting.StableSort(rs, ReviewedLater)
  }

  // ---- Identifiers ----------------------------------------------------------

  function TypedNodeID(typ: string, caption: string): string {
    typ + ":" + Slugs.Slug(caption)
  }

  function TenantNodeID(id: string): string { TypedNodeID("tenant", id) }

  function EvidenceNodeID(id: string): string { TypedNodeID("evidence", id) }

  function ProofpackNodeID(id: string): string { TypedNodeID("proofpack", id) }

  function ActionNodeID(id: string): string { TypedNodeID("action", id) }

  function ActionID(typ: string, target: string): string { typ + ":" + Slugs.Slug(target) }

  function ReportNodeID(id: string): string { TypedNodeID("review_report", id) }

  function PilotNodeID(tenantID: string): string { TypedNodeID("pilot_readiness", tenantID) }

  function SnapshotNodeID(formats: Formats, t: Instant, i: nat): string {
    "snapshot:review:" + formats.stamp(t) + ":" + Decimal(i)
  }

  function EventNodeID(formats: Formats, ev: OperationalEvent, i: nat): string {
    "operational_event:" + Slugs.Slug(ev.typ) + ":" + formats.stamp(ev.createdAt) + ":" + Decimal(i)
  }

  function NarrativeNodeID(n: Narrative, i: nat): string {
    "narrative:" + Slugs.Slug(n.scope) + ":" + Decimal(i)
  }

  function ExportNodeID(kind: string): string {
    "export:evidence-graph:" + kind
  }

  const NOT_COMPARABLE_ID := "review_comparison:not_comparable"
  const LATEST_PREVIOUS_ID := "review_comparison:latest_previous"
  const CAP_NODE_ID := "graph_cap:omitted_nodes"
  const EXPORT_KINDS: seq<string> := ["markdown", "text", "json"]

  // ---- Status words ---------------------------------------------------------

  function SeverityRank(status: string): int {
    if status == "expired" then 1
    else if status == "missing" then 2
    else if status == "ownerless" then 3
    else if status == "unresolved" then 4
    else if status == "stale" then 5
    else if status == "not_comparable" then 6
    else if status == "degraded" then 7
    else if status == "active" then 8
    else 9
  }

  function EdgeStatus(status: string): string {
    if status == "ownerless" then "missing"
    else if status in {"active", "stale", "expired", "missing", "unresolved", "not_comparable", "degraded"} then status
    else "degraded"
  }

  function RiskStatus(status: string): string {
    if status == "active" then "active" else "unresolved"
  }

  function ReviewStatus(r: ReviewSnapshot): string {
    if r.expiredEvidence > 0 then "expired"
    else if r.missingOwners > 0 then "ownerless"
    else if r.staleEvidence > 0 then "stale"
    else if r.unresolvedIssues > 0 then "unresolved"
    else "active"
  }

  function ComparisonStatus(latest: ReviewSnapshot, previous: ReviewSnapshot): string {
    if latest.unresolvedIssues > previous.unresolvedIssues || latest.healthScore < previous.healthScore - 2
    then "unresolved" else "active"
  }

  // ---- Shapes ---------------------------------------------------------------

  function MakeNode(inp: Input, id: string, typ: string, caption: string, status: string, created: Instant,
          updated: Instant): Node {
    Node(id, typ, caption, inp.tenantID, status, created, updated, Plain)
  }

  function MakeEdge(inp: Input, typ: string, source: string, target: string, status: string, created: Instant): Edge {
    Edge("", typ, source, target, inp.tenantID, status, created)
  }

  /** Concatenation of what `f` emits for each element, in order. */
  function FlatMap<T, U>(s: seq<T>, f: (nat, T) -> seq<U>): seq<U> {
    if s == [] then [] else FlatMap(s[..|s| - 1], f) + f(|s| - 1, s[|s| - 1])
  }

  lemma FlatMapSnoc<T, U>(s: seq<T>, x: T, f: (nat, T) -> seq<U>)
    ensures FlatMap(s + [x], f) == FlatMap(s, f) + f(|s|, x)
  {
  }

  lemma FlatMapEmpty<T, U>(s: seq<T>, f: (nat, T) -> seq<U>)
    ensures FlatMap(s[..0], f) == []
  {
  }

  /** What one more loop iteration emits. */
  lemma FlatMapNext<T, U>(s: seq<T>, i: nat, f: (nat, T) -> seq<U>)
    requires i < |s|
    ensures FlatMap(s[..i + 1], f) == FlatMap(s[..i], f) + f(i, s[i])
  {
    assert s[..i + 1] == s[..i] + [s[i]];
    FlatMapSnoc(s[..i], s[i], f);
  }

  lemma {:induction false} FlatMapMembers<T, U>(s: seq<T>, f: (nat, T) -> seq<U>)
    ensures forall u :: u in FlatMap(s, f) <==> exists i :: 0 <= i < |s| && u in f(i, s[i])
  {
    if s != [] {
      FlatMapMembers(s[..|s| - 1], f);
    }
  }

  // ---- Evidence items -------------------------------------------------------

  function OwnerLabel(it: Item): string {
    if TrimSpace(it.ownerName) == "" then TrimSpace(it.ownerEmail) else TrimSpace(it.ownerName)
  }

  function OwnerNodeID(it: Item): string {
    TypedNodeID("owner", if TrimSpace(it.ownerEmail) == "" then TrimSpace(it.ownerName) else TrimSpace(it.ownerEmail))
  }

  function RefNodes(inp: Input, it: Item, typ: string, refs: seq<string>, status: string): seq<Node> {
    seq(|refs|, k requires 0 <= k < |refs| =>
      MakeNode(inp, TypedNodeID(typ, refs[k]), typ, refs[k], status, it.createdAt, it.updatedAt))
  }

  function RefEdges(inp: Input, it: Item, edgeType: string, typ: string, refs: seq<string>, status: string): seq<Edge> {
    seq(|refs|, k requires 0 <= k < |refs| =>
      MakeEdge(inp, edgeType, EvidenceNodeID(it.id), TypedNodeID(typ, refs[k]), status, it.updatedAt))
  }

  function EvidenceNode(inp: Input, it: Item): Node {
    MakeNode(inp, EvidenceNodeID(it.id), "evidence", it.title, CanonicalStatus(it, inp.now), it.createdAt, it.updatedAt)
    .(meta := Mappings(it.id, it.controlRefs, it.vendorRefs, it.riskRefs))
  }

  function OwnerNodes(inp: Input, it: Item): seq<Node> {
    if IsOwnerless(it) then []
    else [MakeNode(inp, OwnerNodeID(it), "owner", OwnerLabel(it), "active", it.createdAt, it.updatedAt)]
  }

  function OwnerEdges(inp: Input, it: Item): seq<Edge> {
    if IsOwnerless(it) then []
    else [MakeEdge(inp, "OWNS", OwnerNodeID(it), EvidenceNodeID(it.id), "active", it.updatedAt)]
  }

  /** The edge from an item to the action that mends one of its gaps. */
  function GapEdges(inp: Input, it: Item, gap: bool, edgeType: string, actionType: string, status: string): seq<Edge> {
    if !gap then []
    else [MakeEdge(inp, edgeType, EvidenceNodeID(it.id), ActionNodeID(ActionID(actionType, it.id)), status, inp.now)]
  }

  function ItemNodes(inp: Input, it: Item): seq<Node> {
    [EvidenceNode(inp, it)] + OwnerNodes(inp, it)
    + RefNodes(inp, it, "control", it.controlRefs, "active")
    + RefNodes(inp, it, "vendor", it.vendorRefs, "active")
    + RefNodes(inp, it, "risk", it.riskRefs, RiskStatus(CanonicalStatus(it, inp.now)))
  }

  function ItemEdges(inp: Input, it: Item): seq<Edge> {
    OwnerEdges(inp, it)
    + RefEdges(inp, it, "SUPPORTS_CONTROL", "control", it.controlRefs, "active")
    + RefEdges(inp, it, "RELATES_TO_VENDOR", "vendor", it.vendorRefs, "active")
    + RefEdges(inp, it, "MITIGATES_RISK", "risk", it.riskRefs, EdgeStatus(CanonicalStatus(it, inp.now)))
    + GapEdges(inp, it, IsExpired(it), "EXPIRED_BECAUSE", "replace_expired_evidence", "expired")
    + GapEdges(inp, it, IsOwnerless(it), "OWNERLESS_BECAUSE", "assign_owner", "missing")
    + GapEdges(inp, it, IsStale(it, inp.now), "STALE_BECAUSE", "refresh_stale_evidence", "stale")
  }

  function ItemNodesOf(inp: Input): (nat, Item) -> seq<Node> { (i: nat, it) => ItemNodes(inp, it) }

  function ItemEdgesOf(inp: Input): (nat, Item) -> seq<Edge> { (i: nat, it) => ItemEdges(inp, it) }

  // ---- Proofpacks -----------------------------------------------------------

  function KnownIDs(items: seq<Item>): set<string> {
    set k | 0 <= k < |items| :: items[k].id
  }

  function ProofpackNodes(inp: Input, p: Proofpack): seq<Node> {
    [MakeNode(inp, ProofpackNodeID(p.id), "proofpack", p.id, if p.evidenceIDs == [] then "degraded"
      else "active", p.createdAt, p.createdAt)]
  }

  function ManifestEdge(inp: Input, p: Proofpack, evidenceID: string): seq<Edge> {
    if evidenceID in KnownIDs(inp.items)
    then [MakeEdge(inp, "INCLUDED_IN_PROOFPACK", EvidenceNodeID(evidenceID), ProofpackNodeID(p.id), "active",
      p.createdAt)]
    else []
  }

  function ManifestEdgeOf(inp: Input, p: Proofpack): (nat, string) -> seq<Edge> {
    (k: nat, e) => ManifestEdge(inp, p, e)
  }

  function ProofpackEdges(inp: Input, p: Proofpack): seq<Edge> {
    FlatMap(p.evidenceIDs, ManifestEdgeOf(inp, p))
  }

  function ProofpackNodesOf(inp: Input): (nat, Proofpack) -> seq<Node> { (i: nat, p) => ProofpackNodes(inp, p) }

  function ProofpackEdgesOf(inp: Input): (nat, Proofpack) -> seq<Edge> { (i: nat, p) => ProofpackEdges(inp, p) }

  // ---- History --------------------------------------------------------------

  function ReviewNodes(inp: Input, i: nat, r: ReviewSnapshot): seq<Node> {
    [MakeNode(inp, SnapshotNodeID(inp.formats, r.lastReviewedAt, i), "snapshot",
      "Review snapshot " + inp.formats.date(r.lastReviewedAt),
              ReviewStatus(r), r.generatedAt, r.lastReviewedAt)]
  }

  function ReviewEdges(inp: Input, i: nat, r: ReviewSnapshot): seq<Edge> {
    [MakeEdge(inp, "APPEARS_IN_SNAPSHOT", TenantNodeID(inp.tenantID),
      SnapshotNodeID(inp.formats, r.lastReviewedAt, i), "active", r.generatedAt)]
  }

  function EventNodes(inp: Input, i: nat, ev: OperationalEvent): seq<Node> {
    [MakeNode(inp, EventNodeID(inp.formats, ev, i), "operational_event", ev.typ, "active", ev.createdAt, ev.createdAt)]
  }

  function EventSource(inp: Input, ev: OperationalEvent): string {
    if ev.entityID != "" then EvidenceNodeID(ev.entityID) else TenantNodeID(inp.tenantID)
  }

  function EventEdges(inp: Input, i: nat, ev: OperationalEvent): seq<Edge> {
    [MakeEdge(inp, "GENERATED_EVENT", EventSource(inp, ev), EventNodeID(inp.formats, ev, i), "active", ev.createdAt)]
  }

  function ReportNodes(inp: Input, r: ReviewReport): seq<Node> {
    [MakeNode(inp, ReportNodeID(r.id), "review_report", r.id, "active", r.generatedAt, r.generatedAt)]
  }

  function ReportEdges(inp: Input, r: ReviewReport): seq<Edge> {
    [MakeEdge(inp, "REVIEWED_IN", TenantNodeID(inp.tenantID), ReportNodeID(r.id), "active", r.generatedAt)]
  }

  function ReviewNodesOf(inp: Input): (nat, ReviewSnapshot) -> seq<Node> { (i: nat, r) => ReviewNodes(inp, i, r) }

  function ReviewEdgesOf(inp: Input): (nat, ReviewSnapshot) -> seq<Edge> { (i: nat, r) => ReviewEdges(inp, i, r) }

  function EventNodesOf(inp: Input): (nat, OperationalEvent) -> seq<Node> { (i: nat, ev) => EventNodes(inp, i, ev) }

  function EventEdgesOf(inp: Input): (nat, OperationalEvent) -> seq<Edge> { (i: nat, ev) => EventEdges(inp, i, ev) }

  function ReportNodesOf(inp: Input): (nat, ReviewReport) -> seq<Node> { (i: nat, r) => ReportNodes(inp, r) }

  function ReportEdgesOf(inp: Input): (nat, ReviewReport) -> seq<Edge> { (i: nat, r) => ReportEdges(inp, r) }

  // ---- Comparison, readiness, exports, narratives ---------------------------

  function ComparisonNodes(inp: Input): seq<Node> {
    var rs := inp.data.reviews;
    if |rs| < 2 then
      [MakeNode(inp, NOT_COMPARABLE_ID, "review_comparison", "Review comparison unavailable", "not_comparable",
        inp.now, inp.now)]
    else
      [MakeNode(inp, LATEST_PREVIOUS_ID, "review_comparison", "Latest vs previous review",
        ComparisonStatus(rs[0], rs[1]),
                rs[0].generatedAt, rs[0].generatedAt)]
  }

  function ComparisonEdges(inp: Input): seq<Edge> {
    var rs := inp.data.reviews;
    if |rs| < 2 then []
    else
      [MakeEdge(inp, "COMPARED_WITH", SnapshotNodeID(inp.formats, rs[0].lastReviewedAt, 0),
                SnapshotNodeID(inp.formats, rs[1].lastReviewedAt, 1), ComparisonStatus(rs[0], rs[1]),
                  rs[0].generatedAt)]
  }

  function Readiness(d: TenantData): string {
    if |d.reviews| >= 4 && |d.proofpacks| > 0 then "active"
    else if |d.reviews| >= 2 then "not_comparable"
    else "degraded"
  }

  function PilotNodes(inp: Input): seq<Node> {
    [MakeNode(inp, PilotNodeID(inp.tenantID), "pilot_readiness", "Pilot readiness", Readiness(inp.data), inp.now,
      inp.now)]
  }

  function ExportNodes(inp: Input, kind: string): seq<Node> {
    [MakeNode(inp, ExportNodeID(kind), "export", "Evidence graph " + kind + " export", "active", inp.now, inp.now)]
  }

  function ExportEdges(inp: Input, kind: string): seq<Edge> {
    [MakeEdge(inp, "READY_FOR_EXPORT", TenantNodeID(inp.tenantID), ExportNodeID(kind), "active", inp.now)]
  }

  function NarrativeNodes(inp: Input, i: nat, n: Narrative): seq<Node> {
    [MakeNode(inp, NarrativeNodeID(n, i), "narrative", n.scope, "active", n.generatedAt, n.generatedAt)]
  }

  function NarrativeEdges(inp: Input, i: nat, n: Narrative): seq<Edge> {
    [MakeEdge(inp, "PRODUCED_NARRATIVE", TenantNodeID(inp.tenantID), NarrativeNodeID(n, i), "active", n.generatedAt)]
  }

  function ExportNodesOf(inp: Input): (nat, string) -> seq<Node> { (i: nat, kind) => ExportNodes(inp, kind) }

  function ExportEdgesOf(inp: Input): (nat, string) -> seq<Edge> { (i: nat, kind) => ExportEdges(inp, kind) }

  function NarrativeNodesOf(inp: Input): (nat, Narrative) -> seq<Node> { (i: nat, n) => NarrativeNodes(inp, i, n) }

  function NarrativeEdgesOf(inp: Input): (nat, Narrative) -> seq<Edge> { (i: nat, n) => NarrativeEdges(inp, i, n) }

  // ---- Next actions ---------------------------------------------------------

  function ItemAction(gap: bool, typ: string, severity: string, impact: int, title: string, it: Item): seq<Action> {
    if !gap then []
    else [Action(ActionID(typ, it.id), typ, title + it.title, severity, impact, [EvidenceNodeID(it.id)])]
  }

  function ItemActions(now: Instant, it: Item): seq<Action> {
    ItemAction(IsExpired(it), "replace_expired_evidence", "expired", 25, "Replace expired evidence: ", it)
    + ItemAction(IsOwnerless(it), "assign_owner", "ownerless", 18, "Assign owner to ", it)
    + ItemAction(IsStale(it, now), "refresh_stale_evidence", "stale", 12, "Refresh stale evidence: ", it)
    + ItemAction(it.controlRefs == [], "add_control_mapping", "missing", 10, "Add control mapping for ", it)
    + ItemAction(it.vendorRefs == [], "add_vendor_mapping", "missing", 7, "Add vendor mapping for ", it)
  }

  function ItemActionsOf(now: Instant): (nat, Item) -> seq<Action> { (i: nat, it) => ItemActions(now, it) }

  function TenantAction(wanted: bool, tenantID: string, typ: string, severity: string, impact: int, title: string,
          target: string): seq<Action> {
    if !wanted then [] else [Action(ActionID(typ, tenantID), typ, title, severity, impact, [target])]
  }

  function TenantActions(tenantID: string, d: TenantData): seq<Action> {
    TenantAction(|d.proofpacks| == 0, tenantID, "create_proofpack", "missing", 16, "Create first proofpack",
      TenantNodeID(tenantID))
    + TenantAction(|d.reviews| == 0, tenantID, "complete_review", "missing", 20, "Complete first operational review",
      TenantNodeID(tenantID))
    + TenantAction(|d.reviews| < 2, tenantID, "compare_reviews", "not_comparable", 11,
      "Generate enough reviews to compare", NOT_COMPARABLE_ID)
    + TenantAction(|d.reviews| >= 4
      && |d.proofpacks| > 0, tenantID, "generate_pilot_proof_bundle", "active", 9, "Export pilot proof bundle",
        PilotNodeID(tenantID))
    + TenantAction(true, tenantID, "export_graph", "active", 6, "Export evidence graph", TenantNodeID(tenantID))
  }

  /** The actions in the order in which they are appended. */
  function RawActions(inp: Input): seq<Action> {
    FlatMap(inp.items, ItemActionsOf(inp.now)) + TenantActions(inp.tenantID, inp.data)
  }

  predicate ActionLess(a: Action, b: Action) {
    if SeverityRank(a.severity) != SeverityRank(b.severity) then SeverityRank(a.severity) < SeverityRank(b.severity)
    else if a.impact != b.impact then a.impact > b.impact
    else Less(a.id, b.id)
  }

  function SortActions(actions: seq<Action>): seq<Action> {
    Sorting.StableSort(actions, ActionLess)
  }

  function NextActions(inp: Input): seq<Action> {
    SortActions(RawActions(inp))
  }

  function ActionNodes(inp: Input, a: Action): seq<Node> {
    [MakeNode(inp, ActionNodeID(a.id), "action", a.title, a.severity, inp.now, inp.now)]
  }

  function TargetEdges(inp: Input, a: Action, target: string): seq<Edge> {
    [MakeEdge(inp, "REQUIRES_ACTION", target, ActionNodeID(a.id), EdgeStatus(a.severity), inp.now)]
  }

  function TargetEdgesOf(inp: Input, a: Action): (nat, string) -> seq<Edge> { (k: nat, t) => TargetEdges(inp, a, t) }

  function ActionEdges(inp: Input, a: Action): seq<Edge> {
    FlatMap(a.targets, TargetEdgesOf(inp, a))
  }

  function ActionNodesOf(inp: Input): (nat, Action) -> seq<Node> { (i: nat, a) => ActionNodes(inp, a) }

  function ActionEdgesOf(inp: Input): (nat, Action) -> seq<Edge> { (i: nat, a) => ActionEdges(inp, a) }

  // ---- Everything the builder emits, in order -------------------------------

  function TenantNode(inp: Input): Node {
    MakeNode(inp, TenantNodeID(inp.tenantID), "tenant", inp.tenantID, "active", inp.now, inp.now)
  }

  function HistoryNodes(inp: Input): seq<Node> {
    FlatMap(inp.data.reviews, ReviewNodesOf(inp))
    + FlatMap(inp.data.events, EventNodesOf(inp))
    + FlatMap(inp.data.reports, ReportNodesOf(inp))
    + ComparisonNodes(inp)
    + PilotNodes(inp)
    + FlatMap(EXPORT_KINDS, ExportNodesOf(inp))
    + FlatMap(inp.narratives, NarrativeNodesOf(inp))
  }

  function HistoryEdges(inp: Input): seq<Edge> {
    FlatMap(inp.data.reviews, ReviewEdgesOf(inp))
    + FlatMap(inp.data.events, EventEdgesOf(inp))
    + FlatMap(inp.data.reports, ReportEdgesOf(inp))
    + ComparisonEdges(inp)
    + FlatMap(EXPORT_KINDS, ExportEdgesOf(inp))
    + FlatMap(inp.narratives, NarrativeEdgesOf(inp))
  }

  function NodeLog(inp: Input): seq<Node> {
    [TenantNode(inp)]
    + FlatMap(inp.items, ItemNodesOf(inp))
    + FlatMap(inp.data.proofpacks, ProofpackNodesOf(inp))
    + HistoryNodes(inp)
    + FlatMap(NextActions(inp), ActionNodesOf(inp))
  }

  function EdgeLog(inp: Input): seq<Edge> {
    FlatMap(inp.items, ItemEdgesOf(inp))
    + FlatMap(inp.data.proofpacks, ProofpackEdgesOf(inp))
    + HistoryEdges(inp)
    + FlatMap(NextActions(inp), ActionEdgesOf(inp))
  }
}

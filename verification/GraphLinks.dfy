/** What the edges of a finished graph say, in the fields of the records behind them. */
module GraphLinks {
  import opened Slugs
  import opened Text
  import opened Records
  import opened Evidence
  import Sorting
  import Keyed
  import opened GraphModel
  import opened GraphRefs
  import GraphOrder
  import opened GraphBuilder
  import EvidenceGraph
  import GraphTheorems
  import opened GraphContents
  import GraphReading

  // ---- Words ----------------------------------------------------------------

  predicate Ties(inp: Input, e: Edge, typ: string, source: string, target: string, status: string, at: Instant) {
    && e.typ == typ && e.source == source && e.target == target && e.status == status
    && e.tenantID == inp.tenantID && e.createdAt == Filled(at, inp.now)
    && e.id == "edge:" + Slug(typ) + ":" + Slug(source) + ":" + Slug(target)
  }

  const EDGE_WORDS: seq<string> := ["active", "stale", "expired", "missing", "unresolved", "not_comparable", "degraded"]

  /** An edge shows the status of its item, in the words that edges have. */
  ghost predicate LinkShows(it: Item, now: Instant, status: string) {
    exists shown :: ShowsStatus(it, now, shown) && InEdgeWords(shown, status)
  }

  predicate InEdgeWords(shown: string, status: string) {
    && (shown in EDGE_WORDS ==> status == shown)
    && (shown == "ownerless" ==> status == "missing")
    && (shown !in EDGE_WORDS && shown != "ownerless" ==> status == "degraded")
  }

  lemma EdgeStatusWords(shown: string)
    ensures InEdgeWords(shown, EdgeStatus(shown))
  {
    assert |"ownerless"| == 9;
    assert forall k :: 0 <= k < 7 ==> EDGE_WORDS[k] != "ownerless";
  }

  function ItemText(it: Item): string {
    "evidence:" + Slug(it.id)
  }

  /** The action of this type that mends the item. */
  function MendText(typ: string, it: Item): string {
    "action:" + Slug(typ + ":" + Slug(it.id))
  }

  /** The owner's address stands for it, or its name. */
  function OwnerText(it: Item): string {
    "owner:" + Slug(TrimSpace(if AllSpace(it.ownerEmail) then it.ownerName else it.ownerEmail))
  }

  // ---- What one edge says ---------------------------------------------------

  ghost predicate ReferenceTies(inp: Input, e: Edge, it: Item, edgeType: string, prefix: string, refs: seq<string>,
          status: string) {
    exists k :: 0 <= k < |refs|
      && Ties(inp, e, edgeType, ItemText(it), prefix + Slug(refs[k]), status, it.updatedAt)
  }

  /** A link or a gap recorded on the item. */
  ghost predicate ItemTies(inp: Input, e: Edge, it: Item) {
    var me, now := ItemText(it), inp.now;
    var noOwner := AllSpace(it.ownerEmail) && AllSpace(it.ownerName);
    || (!noOwner && Ties(inp, e, "OWNS", OwnerText(it), me, "active", it.updatedAt))
    || ReferenceTies(inp, e, it, "SUPPORTS_CONTROL", "control:", it.controlRefs, "active")
    || ReferenceTies(inp, e, it, "RELATES_TO_VENDOR", "vendor:", it.vendorRefs, "active")
    || (ReferenceTies(inp, e, it, "MITIGATES_RISK", "risk:", it.riskRefs, e.status) && LinkShows(it, now, e.status))
    || (it.status == "expired"
        && Ties(inp, e, "EXPIRED_BECAUSE", me, MendText("replace_expired_evidence", it), "expired", now))
    || (noOwner && Ties(inp, e, "OWNERLESS_BECAUSE", me, MendText("assign_owner", it), "missing", now))
    || (it.updatedAt != 0 && now - it.updatedAt > 180 * 86_400_000_000_000
        && Ties(inp, e, "STALE_BECAUSE", me, MendText("refresh_stale_evidence", it), "stale", now))
  }

  /** An entry of the manifest that names a listed item. */
  ghost predicate ManifestTies(inp: Input, e: Edge, p: Proofpack) {
    exists k, i :: 0 <= k < |p.evidenceIDs| && 0 <= i < |inp.items| && inp.items[i].id == p.evidenceIDs[k]
      && Ties(inp, e, "INCLUDED_IN_PROOFPACK", ItemText(inp.items[i]), "proofpack:" + Slug(p.id), "active", p.createdAt)
  }

  /** From the tenant to one of its records. */
  predicate TenantTies(inp: Input, e: Edge, typ: string, target: NodeRef, at: Instant)
    requires ValidRef(target)
  {
    Ties(inp, e, typ, "tenant:" + Slug(inp.tenantID), IdText(inp.formats, target), "active", at)
  }

  predicate EventTies(inp: Input, e: Edge, i: nat, ev: OperationalEvent) {
    var source := if ev.entityID == "" then "tenant:" + Slug(inp.tenantID) else "evidence:" + Slug(ev.entityID);
    Ties(inp, e, "GENERATED_EVENT", source, IdText(inp.formats, EventRef(ev, i)), "active", ev.createdAt)
  }

  predicate ComparisonTies(inp: Input, e: Edge) {
    var rs, f := inp.data.reviews, inp.formats;
    && |rs| >= 2
    && Ties(inp, e, "COMPARED_WITH", IdText(f, SnapshotRef(rs[0].lastReviewedAt, 0)),
            IdText(f, SnapshotRef(rs[1].lastReviewedAt, 1)), e.status, rs[0].generatedAt)
    && ComparisonShows(rs[0], rs[1], e.status)
  }

  ghost predicate ActionTies(inp: Input, e: Edge, a: Action) {
    var status := if a.severity == "ownerless" then "missing" else a.severity;
    exists k :: 0 <= k < |a.targets|
      && Ties(inp, e, "REQUIRES_ACTION", a.targets[k], "action:" + Slug(a.id), status, inp.now)
  }

  ghost predicate SomeReviewTies(inp: Input, e: Edge, rs: seq<ReviewSnapshot>) {
    exists i :: 0 <= i < |rs|
      && TenantTies(inp, e, "APPEARS_IN_SNAPSHOT", SnapshotRef(rs[i].lastReviewedAt, i), rs[i].generatedAt)
  }

  ghost predicate SomeReportTies(inp: Input, e: Edge, rs: seq<ReviewReport>) {
    exists i :: 0 <= i < |rs| && TenantTies(inp, e, "REVIEWED_IN", TypedRef(REPORT, rs[i].id), rs[i].generatedAt)
  }

  ghost predicate SomeNarrativeTies(inp: Input, e: Edge, ns: seq<Narrative>) {
    exists i :: 0 <= i < |ns|
      && TenantTies(inp, e, "PRODUCED_NARRATIVE", NarrativeRef(ns[i], i), ns[i].generatedAt)
  }

  ghost predicate HistoryTies(inp: Input, e: Edge) {
    || SomeReviewTies(inp, e, inp.data.reviews)
    || (exists i :: 0 <= i < |inp.data.events| && EventTies(inp, e, i, inp.data.events[i]))
    || SomeReportTies(inp, e, inp.data.reports)
    || ComparisonTies(inp, e)
    || (exists k :: 0 <= k < |EXPORT_KINDS| && TenantTies(inp, e, "READY_FOR_EXPORT", ExportRef(k), inp.now))
    || SomeNarrativeTies(inp, e, inp.narratives)
  }

  /** The edge says what a record says. */
  ghost predicate IsTied(inp: Input, e: Edge) {
    || (exists i :: 0 <= i < |inp.items| && ItemTies(inp, e, inp.items[i]))
    || (exists i :: 0 <= i < |inp.data.proofpacks| && ManifestTies(inp, e, inp.data.proofpacks[i]))
    || HistoryTies(inp, e)
    || (exists i :: 0 <= i < |NextActions(inp)| && ActionTies(inp, e, NextActions(inp)[i]))
  }

  // ---- What is emitted ------------------------------------------------------

  lemma MadeTies(inp: Input, typ: string, source: string, target: string, status: string, at: Instant)
    ensures var e := FillEdge(MakeEdge(inp, typ, source, target, status, at), inp.now);
            e.status == status && Ties(inp, e, typ, source, target, status, at)
  {
    hide Slug;
  }

  lemma ItemTexts(it: Item)
    ensures EvidenceNodeID(it.id) == ItemText(it)
  {
    hide Slug;
    GraphReading.EvidenceText(it.id);
  }

  lemma OwnerTexts(it: Item)
    ensures OwnerNodeID(it) == OwnerText(it)
  {
    hide Slug, TrimSpace, AllSpace;
    TrimmedAway(it.ownerEmail);
    var text := TrimSpace(if AllSpace(it.ownerEmail) then it.ownerName else it.ownerEmail);
    assert "owner" + ":" + Slug(text) == "owner" + (":" + Slug(text));
  }

  lemma ActionText(id: string)
    ensures ActionNodeID(id) == "action:" + Slug(id)
  {
    hide Slug;
    assert "action" + ":" + Slug(id) == "action" + (":" + Slug(id));
  }

  lemma OwnerTied(inp: Input, it: Item, v: Edge)
    requires v in OwnerEdges(inp, it)
    ensures ItemTies(inp, FillEdge(v, inp.now), it)
  {
    hide Slug, AllSpace, TrimSpace, IsOwnerless, FillEdge, Ties, OwnerNodeID, TypedNodeID, OwnerText, ItemText,
      MendText, ReferenceTies, LinkShows;
    ItemTexts(it);
    OwnerTexts(it);
    GapsMean(it, inp.now);
    MadeTies(inp, "OWNS", OwnerNodeID(it), EvidenceNodeID(it.id), "active", it.updatedAt);
  }

  lemma ReferenceTied(inp: Input, it: Item, edgeType: string, typ: string, refs: seq<string>, status: string, v: Edge)
    requires v in RefEdges(inp, it, edgeType, typ, refs, status)
    ensures var e := FillEdge(v, inp.now);
            e.status == status && ReferenceTies(inp, e, it, edgeType, typ + ":", refs, status)
  {
    hide Slug, FillEdge, Ties, EvidenceNodeID, ItemText;
    ItemTexts(it);
    var es := RefEdges(inp, it, edgeType, typ, refs, status);
    var k :| 0 <= k < |es| && es[k] == v;
    MadeTies(inp, edgeType, EvidenceNodeID(it.id), TypedNodeID(typ, refs[k]), status, it.updatedAt);
  }

  lemma RiskTied(inp: Input, it: Item, v: Edge)
    requires v in RefEdges(inp, it, "MITIGATES_RISK", "risk", it.riskRefs, EdgeStatus(CanonicalStatus(it, inp.now)))
    ensures var e := FillEdge(v, inp.now);
            ReferenceTies(inp, e, it, "MITIGATES_RISK", "risk:", it.riskRefs, e.status)
            && LinkShows(it, inp.now, e.status)
  {
    hide FillEdge, ReferenceTies, RefEdges, EdgeStatus, CanonicalStatus, ShowsStatus, InEdgeWords;
    var shown := CanonicalStatus(it, inp.now);
    assert "risk" + ":" == "risk:";
    ReferenceTied(inp, it, "MITIGATES_RISK", "risk", it.riskRefs, EdgeStatus(shown), v);
    CanonicalIsShown(it, inp.now);
    EdgeStatusWords(shown);
  }

  lemma GapTied(inp: Input, it: Item, gap: bool, edgeType: string, actionType: string, status: string, v: Edge)
    requires v in GapEdges(inp, it, gap, edgeType, actionType, status)
    ensures gap && Ties(inp, FillEdge(v, inp.now), edgeType, ItemText(it), MendText(actionType, it), status, inp.now)
  {
    hide Slug, FillEdge, Ties, EvidenceNodeID, ActionNodeID, ItemText;
    ItemTexts(it);
    ActionText(ActionID(actionType, it.id));
    MadeTies(inp, edgeType, EvidenceNodeID(it.id), ActionNodeID(ActionID(actionType, it.id)), status, inp.now);
  }

  lemma ItemTied(inp: Input, it: Item, v: Edge)
    requires v in ItemEdges(inp, it)
    ensures ItemTies(inp, FillEdge(v, inp.now), it)
  {
    hide FillEdge, Ties, OwnerEdges, RefEdges, GapEdges, EdgeStatus, CanonicalStatus, IsOwnerless, IsStale, IsExpired,
      ReferenceTies, LinkShows, ItemTies, AllSpace;
    GapsMean(it, inp.now);
    var e := FillEdge(v, inp.now);
    if v in OwnerEdges(inp, it) {
      OwnerTied(inp, it, v);
    } else if v in RefEdges(inp, it, "SUPPORTS_CONTROL", "control", it.controlRefs, "active") {
      assert "control" + ":" == "control:";
      ReferenceTied(inp, it, "SUPPORTS_CONTROL", "control", it.controlRefs, "active", v);
      ReferencesAreTies(inp, e, it);
    } else if v in RefEdges(inp, it, "RELATES_TO_VENDOR", "vendor", it.vendorRefs, "active") {
      assert "vendor" + ":" == "vendor:";
      ReferenceTied(inp, it, "RELATES_TO_VENDOR", "vendor", it.vendorRefs, "active", v);
      ReferencesAreTies(inp, e, it);
    } else if v in RefEdges(inp, it, "MITIGATES_RISK", "risk", it.riskRefs, EdgeStatus(CanonicalStatus(it, inp.now))) {
      RiskTied(inp, it, v);
      ReferencesAreTies(inp, e, it);
    } else {
      GapsTied(inp, it, v);
    }
  }

  lemma ReferencesAreTies(inp: Input, e: Edge, it: Item)
    requires || ReferenceTies(inp, e, it, "SUPPORTS_CONTROL", "control:", it.controlRefs, "active")
             || ReferenceTies(inp, e, it, "RELATES_TO_VENDOR", "vendor:", it.vendorRefs, "active")
             || (ReferenceTies(inp, e, it, "MITIGATES_RISK", "risk:", it.riskRefs, e.status)
                 && LinkShows(it, inp.now, e.status))
    ensures ItemTies(inp, e, it)
  {
    hide Ties, ReferenceTies, LinkShows, AllSpace;
  }

  lemma GapsTied(inp: Input, it: Item, v: Edge)
    requires v in GapEdges(inp, it, IsExpired(it), "EXPIRED_BECAUSE", "replace_expired_evidence", "expired")
               + GapEdges(inp, it, IsOwnerless(it), "OWNERLESS_BECAUSE", "assign_owner", "missing")
               + GapEdges(inp, it, IsStale(it, inp.now), "STALE_BECAUSE", "refresh_stale_evidence", "stale")
    ensures ItemTies(inp, FillEdge(v, inp.now), it)
  {
    hide FillEdge, Ties, GapEdges, IsOwnerless, IsStale, IsExpired, ReferenceTies, LinkShows, AllSpace, MendText;
    GapsMean(it, inp.now);
    if v in GapEdges(inp, it, IsExpired(it), "EXPIRED_BECAUSE", "replace_expired_evidence", "expired") {
      GapTied(inp, it, IsExpired(it), "EXPIRED_BECAUSE", "replace_expired_evidence", "expired", v);
    } else if v in GapEdges(inp, it, IsOwnerless(it), "OWNERLESS_BECAUSE", "assign_owner", "missing") {
      GapTied(inp, it, IsOwnerless(it), "OWNERLESS_BECAUSE", "assign_owner", "missing", v);
    } else {
      GapTied(inp, it, IsStale(it, inp.now), "STALE_BECAUSE", "refresh_stale_evidence", "stale", v);
    }
  }

  lemma ManifestTied(inp: Input, p: Proofpack, v: Edge)
    requires v in ProofpackEdges(inp, p)
    ensures ManifestTies(inp, FillEdge(v, inp.now), p)
  {
    hide Slug, FillEdge, Ties, FlatMap, EvidenceNodeID, ProofpackNodeID, ItemText;
    FlatMapMembers(p.evidenceIDs, ManifestEdgeOf(inp, p));
    var k :| 0 <= k < |p.evidenceIDs| && v in ManifestEdgeOf(inp, p)(k, p.evidenceIDs[k]);
    var i :| 0 <= i < |inp.items| && inp.items[i].id == p.evidenceIDs[k];
    ItemTexts(inp.items[i]);
    ProofpackText(p.id);
    MadeTies(inp, "INCLUDED_IN_PROOFPACK", EvidenceNodeID(p.evidenceIDs[k]), ProofpackNodeID(p.id), "active",
      p.createdAt);
  }

  lemma ProofpackText(id: string)
    ensures ProofpackNodeID(id) == "proofpack:" + Slug(id)
  {
    hide Slug;
    assert "proofpack" + ":" + Slug(id) == "proofpack" + (":" + Slug(id));
  }

  lemma TenantTied(inp: Input, typ: string, target: NodeRef, at: Instant)
    requires ValidRef(target)
    ensures var v := MakeEdge(inp, typ, TenantNodeID(inp.tenantID), RefID(inp.formats, target), "active", at);
            TenantTies(inp, FillEdge(v, inp.now), typ, target, at)
  {
    hide Slug, FillEdge, Ties, TypedNodeID, RefID, IdText;
    GraphReading.TenantTexts(inp.tenantID);
    RefIsText(inp.formats, target);
    MadeTies(inp, typ, TenantNodeID(inp.tenantID), RefID(inp.formats, target), "active", at);
  }

  lemma EventTied(inp: Input, i: nat, ev: OperationalEvent)
    ensures EventTies(inp, FillEdge(EventEdges(inp, i, ev)[0], inp.now), i, ev)
  {
    hide Slug, FillEdge, Ties, TypedNodeID, EventNodeID, IdText;
    GraphReading.TenantTexts(inp.tenantID);
    GraphReading.EvidenceText(ev.entityID);
    RefIsText(inp.formats, EventRef(ev, i));
    MadeTies(inp, "GENERATED_EVENT", EventSource(inp, ev), EventNodeID(inp.formats, ev, i), "active", ev.createdAt);
  }

  lemma ComparisonTied(inp: Input)
    requires |inp.data.reviews| >= 2
    ensures ComparisonTies(inp, FillEdge(ComparisonEdges(inp)[0], inp.now))
  {
    hide FillEdge, Ties, SnapshotNodeID, IdText;
    var rs, f := inp.data.reviews, inp.formats;
    RefIsText(f, SnapshotRef(rs[0].lastReviewedAt, 0));
    RefIsText(f, SnapshotRef(rs[1].lastReviewedAt, 1));
    MadeTies(inp, "COMPARED_WITH", SnapshotNodeID(f, rs[0].lastReviewedAt, 0),
      SnapshotNodeID(f, rs[1].lastReviewedAt, 1), ComparisonStatus(rs[0], rs[1]), rs[0].generatedAt);
  }

  lemma HistoryTied(inp: Input, v: Edge)
    requires v in HistoryEdges(inp)
    ensures HistoryTies(inp, FillEdge(v, inp.now))
  {
    hide FillEdge, FlatMap, TenantTies, EventTies, ComparisonTies, TypedNodeID, SnapshotNodeID, EventNodeID,
      NarrativeNodeID, ExportNodeID, EventSource;
    FlatMapMembers(inp.data.reviews, ReviewEdgesOf(inp));
    FlatMapMembers(inp.data.events, EventEdgesOf(inp));
    FlatMapMembers(inp.data.reports, ReportEdgesOf(inp));
    FlatMapMembers(EXPORT_KINDS, ExportEdgesOf(inp));
    FlatMapMembers(inp.narratives, NarrativeEdgesOf(inp));
    if i :| 0 <= i < |inp.data.reviews| && v in ReviewEdgesOf(inp)(i, inp.data.reviews[i]) {
      var r := inp.data.reviews[i];
      TenantTied(inp, "APPEARS_IN_SNAPSHOT", SnapshotRef(r.lastReviewedAt, i), r.generatedAt);
    } else if i :| 0 <= i < |inp.data.events| && v in EventEdgesOf(inp)(i, inp.data.events[i]) {
      EventTied(inp, i, inp.data.events[i]);
    } else if i :| 0 <= i < |inp.data.reports| && v in ReportEdgesOf(inp)(i, inp.data.reports[i]) {
      TenantTied(inp, "REVIEWED_IN", TypedRef(REPORT, inp.data.reports[i].id), inp.data.reports[i].generatedAt);
    } else if v in ComparisonEdges(inp) {
      ComparisonTied(inp);
    } else if k :| 0 <= k < |EXPORT_KINDS| && v in ExportEdgesOf(inp)(k, EXPORT_KINDS[k]) {
      TenantTied(inp, "READY_FOR_EXPORT", ExportRef(k), inp.now);
    } else {
      var i :| 0 <= i < |inp.narratives| && v in NarrativeEdgesOf(inp)(i, inp.narratives[i]);
      TenantTied(inp, "PRODUCED_NARRATIVE", NarrativeRef(inp.narratives[i], i), inp.narratives[i].generatedAt);
    }
  }

  lemma SeverityWord(inp: Input, a: Action)
    requires a in NextActions(inp)
    ensures EdgeStatus(a.severity) == if a.severity == "ownerless" then "missing" else a.severity
  {
    hide NextActions, Slug, AllSpace, GraphReading.ItemAsks;
    GraphReading.ActionsSay(inp, a);
    if i :| 0 <= i < |inp.items| && GraphReading.ItemActionSays(inp.now, inp.items[i], a) {
      ItemSeverity(inp.now, inp.items[i], a);
    }
  }

  lemma ItemSeverity(now: Instant, it: Item, a: Action)
    requires GraphReading.ItemAsks(now, it, a)
    ensures a.severity in {"expired", "ownerless", "stale", "missing"}
  {
    hide AllSpace;
  }

  lemma ActionTied(inp: Input, i: nat, v: Edge)
    requires i < |NextActions(inp)| && v in ActionEdges(inp, NextActions(inp)[i])
    ensures ActionTies(inp, FillEdge(v, inp.now), NextActions(inp)[i])
  {
    hide FillEdge, Ties, FlatMap, NextActions, Slug, ActionNodeID, EdgeStatus;
    var a := NextActions(inp)[i];
    FlatMapMembers(a.targets, TargetEdgesOf(inp, a));
    var k :| 0 <= k < |a.targets| && v in TargetEdgesOf(inp, a)(k, a.targets[k]);
    SeverityWord(inp, a);
    ActionText(a.id);
    MadeTies(inp, "REQUIRES_ACTION", a.targets[k], ActionNodeID(a.id), EdgeStatus(a.severity), inp.now);
  }

  /** Every edge that is emitted, once filled in, says what a record says. */
  lemma LogTied(inp: Input, v: Edge)
    requires v in EdgeLog(inp)
    ensures IsTied(inp, FillEdge(v, inp.now))
  {
    hide FillEdge, FlatMap, ItemEdges, ProofpackEdges, HistoryEdges, ActionEdges, NextActions, ItemTies, ManifestTies,
      HistoryTies, ActionTies;
    FlatMapMembers(inp.items, ItemEdgesOf(inp));
    FlatMapMembers(inp.data.proofpacks, ProofpackEdgesOf(inp));
    FlatMapMembers(NextActions(inp), ActionEdgesOf(inp));
    if i :| 0 <= i < |inp.items| && v in ItemEdgesOf(inp)(i, inp.items[i]) {
      ItemTied(inp, inp.items[i], v);
    } else if i :| 0 <= i < |inp.data.proofpacks| && v in ProofpackEdgesOf(inp)(i, inp.data.proofpacks[i]) {
      ManifestTied(inp, inp.data.proofpacks[i], v);
    } else if v in HistoryEdges(inp) {
      HistoryTied(inp, v);
    } else {
      var i :| 0 <= i < |NextActions(inp)| && v in ActionEdgesOf(inp)(i, NextActions(inp)[i]);
      ActionTied(inp, i, v);
    }
  }

  lemma SortedEdgeIsFilled(inp: Input, e: Edge)
    requires e in EvidenceGraph.SortedEdges(inp)
    ensures exists v :: v in EdgeLog(inp) && e == FillEdge(v, inp.now)
  {
    hide EdgeLog, Sorting.StableSort, Keyed.Survivors, Keyed.Put, GraphOrder.EdgeLess, FillEdge;
    var log := FillEdges(EdgeLog(inp), inp.now);
    Keyed.PutHolds(log, GraphOrder.EdgeKey);
    GraphTheorems.SortedMembers(log, GraphOrder.EdgeKey, GraphOrder.EdgeLess, e);
    assert e in log;
    var m :| 0 <= m < |log| && log[m] == e;
    assert EdgeLog(inp)[m] in EdgeLog(inp);
  }

  /** Main result: every edge of a finished graph says what the record it stands for says, in that record's own
      fields. */
  lemma GraphTies(inp: Input, maxNodes: int, maxEdges: int, e: Edge)
    requires maxNodes > 0 && maxEdges > 0 && e in EvidenceGraph.GraphOf(inp, maxNodes, maxEdges).edges
    ensures IsTied(inp, e)
  {
    hide IsTied, EvidenceGraph.GraphOf, EvidenceGraph.SortedNodes, EvidenceGraph.SortedEdges, FillEdge, EdgeLog;
    GraphTheorems.GraphEdgeIsSorted(inp, maxNodes, maxEdges, e);
    SortedEdgeIsFilled(inp, e);
    var v :| v in EdgeLog(inp) && e == FillEdge(v, inp.now);
    LogTied(inp, v);
  }
}

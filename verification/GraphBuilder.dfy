/** The builder's working maps and the pass over the tenant's records that fills them. */
module GraphBuilder {
  import Slugs
  import opened Records
  import opened Evidence
  import Sorting
  import opened Keyed
  import opened GraphModel
  import GraphOrder

  // ---- Keyed storage --------------------------------------------------------

  function FillNode(n: Node, now: Instant): Node {
    var created := if n.createdAt == ZERO_TIME then now else n.createdAt;
    n.(createdAt := created, updatedAt := if n.updatedAt == ZERO_TIME then created else n.updatedAt)
  }

  function FillEdge(e: Edge, now: Instant): Edge {
    e.(id := Slugs.EdgeID(e.typ, e.source, e.target),
       createdAt := if e.createdAt == ZERO_TIME then now else e.createdAt)
  }

  function FillNodes(log: seq<Node>, now: Instant): seq<Node> {
    seq(|log|, k requires 0 <= k < |log| => FillNode(log[k], now))
  }

  function FillEdges(log: seq<Edge>, now: Instant): seq<Edge> {
    seq(|log|, k requires 0 <= k < |log| => FillEdge(log[k], now))
  }

  /** `work`: the two maps, keyed by identifier, that later entries overwrite. The logs are what was stored so far. */
  class Work {
    const now: Instant
    var nodes: map<string, Node>
    var edges: map<string, Edge>
    ghost var nodeLog: seq<Node>
    ghost var edgeLog: seq<Edge>

    ghost predicate Valid()
      reads this
    {
      && nodes == Put(FillNodes(nodeLog, now), GraphOrder.NodeKey)
      && edges == Put(FillEdges(edgeLog, now), GraphOrder.EdgeKey)
    }

    constructor (now: Instant)
      ensures Valid() && this.now == now && nodeLog == [] && edgeLog == []
    {
      this.now := now;
      nodes, edges := map[], map[];
      nodeLog, edgeLog := [], [];
    }

    method AddNode(n: Node)
      requires Valid()
      modifies this
      ensures Valid() && nodeLog == old(nodeLog) + [n] && edgeLog == old(edgeLog)
      ensures edges == old(edges) && nodes == old(nodes)[n.id := FillNode(n, now)]
    {
      var filled := n;
      if filled.createdAt == ZERO_TIME {
        filled := filled.(createdAt := now);
      }
      if filled.updatedAt == ZERO_TIME {
        filled := filled.(updatedAt := filled.createdAt);
      }
      nodes := nodes[filled.id := filled];
      PutSnoc(FillNodes(nodeLog, now), filled, GraphOrder.NodeKey);
      assert FillNodes(nodeLog + [n], now) == FillNodes(nodeLog, now) + [filled];
      nodeLog := nodeLog + [n];
    }

    method AddEdge(e: Edge)
      requires Valid()
      modifies this
      ensures Valid() && edgeLog == old(edgeLog) + [e] && nodeLog == old(nodeLog)
      ensures nodes == old(nodes) && edges == old(edges)[Slugs.EdgeID(e.typ, e.source, e.target) := FillEdge(e, now)]
    {
      hide Slugs.EdgeID;
      var filled := e;
      if filled.createdAt == ZERO_TIME {
        filled := filled.(createdAt := now);
      }
      filled := filled.(id := Slugs.EdgeID(filled.typ, filled.source, filled.target));
      edges := edges[filled.id := filled];
      PutSnoc(FillEdges(edgeLog, now), filled, GraphOrder.EdgeKey);
      assert FillEdges(edgeLog + [e], now) == FillEdges(edgeLog, now) + [filled];
      edgeLog := edgeLog + [e];
    }
  }

  // ---- Filling the maps -----------------------------------------------------

  /** The builder works for `inp` and has added exactly these nodes and edges since the old state. */
  twostate predicate Added(w: Work, inp: Input, nodes: seq<Node>, edges: seq<Edge>)
    reads w
  {
    && w.Valid() && w.now == inp.now
    && w.nodeLog == old(w.nodeLog) + nodes && w.edgeLog == old(w.edgeLog) + edges
  }

  method BuildRefs(w: Work, inp: Input, it: Item, edgeType: string, typ: string, refs: seq<string>,
          nodeStatus: string, edgeStatus: string)
    requires w.Valid() && w.now == inp.now
    modifies w
    ensures Added(w, inp, RefNodes(inp, it, typ, refs, nodeStatus), RefEdges(inp, it, edgeType, typ, refs, edgeStatus))
  {
    hide TypedNodeID, EvidenceNodeID, Slugs.EdgeID, Put, FillNode, FillEdge;
    ghost var ns, es := RefNodes(inp, it, typ, refs, nodeStatus), RefEdges(inp, it, edgeType, typ, refs, edgeStatus);
    for k := 0 to |refs|
      invariant Added(w, inp, ns[..k], es[..k])
    {
      var id := TypedNodeID(typ, refs[k]);
      w.AddNode(MakeNode(inp, id, typ, refs[k], nodeStatus, it.createdAt, it.updatedAt));
      w.AddEdge(MakeEdge(inp, edgeType, EvidenceNodeID(it.id), id, edgeStatus, it.updatedAt));
      assert ns[..k + 1] == ns[..k] + [ns[k]] && es[..k + 1] == es[..k] + [es[k]];
    }
    assert ns[..|refs|] == ns && es[..|refs|] == es;
  }

  method BuildGap(w: Work, inp: Input, it: Item, gap: bool, edgeType: string, actionType: string, status: string)
    requires w.Valid() && w.now == inp.now
    modifies w
    ensures Added(w, inp, [], GapEdges(inp, it, gap, edgeType, actionType, status))
  {
    hide ActionNodeID, ActionID, EvidenceNodeID, Slugs.EdgeID, FillNode, FillEdge;
    if gap {
      w.AddEdge(MakeEdge(inp, edgeType, EvidenceNodeID(it.id), ActionNodeID(ActionID(actionType, it.id)), status,
        inp.now));
    }
  }

  lemma Append5<T>(s: seq<T>, a: seq<T>, b: seq<T>, c: seq<T>, d: seq<T>, e: seq<T>)
    ensures s + a + b + c + d + e == s + (a + b + c + d + e)
  {
  }

  lemma Append7<T>(s: seq<T>, a: seq<T>, b: seq<T>, c: seq<T>, d: seq<T>, e: seq<T>, f: seq<T>, g: seq<T>)
    ensures s + a + b + c + d + e + f + g == s + (a + b + c + d + e + f + g)
  {
  }

  method BuildOwner(w: Work, inp: Input, it: Item)
    requires w.Valid() && w.now == inp.now
    modifies w
    ensures Added(w, inp, OwnerNodes(inp, it), OwnerEdges(inp, it))
  {
    hide Slugs.EdgeID, FillNode, FillEdge, OwnerNodeID, OwnerLabel, EvidenceNodeID, IsOwnerless;
    if !IsOwnerless(it) {
      w.AddNode(MakeNode(inp, OwnerNodeID(it), "owner", OwnerLabel(it), "active", it.createdAt, it.updatedAt));
      w.AddEdge(MakeEdge(inp, "OWNS", OwnerNodeID(it), EvidenceNodeID(it.id), "active", it.updatedAt));
    }
  }

  method BuildItem(w: Work, inp: Input, it: Item)
    requires w.Valid() && w.now == inp.now
    modifies w
    ensures Added(w, inp, ItemNodes(inp, it), ItemEdges(inp, it))
  {
    hide Slugs.EdgeID, FillNode, FillEdge, EvidenceNode, CanonicalStatus, RiskStatus, EdgeStatus, IsOwnerless, IsStale,
      IsExpired, RefNodes, RefEdges, GapEdges, OwnerNodes, OwnerEdges;
    var status := CanonicalStatus(it, inp.now);
    ghost var ns, es := w.nodeLog, w.edgeLog;
    w.AddNode(EvidenceNode(inp, it));
    BuildOwner(w, inp, it);
    BuildRefs(w, inp, it, "SUPPORTS_CONTROL", "control", it.controlRefs, "active", "active");
    BuildRefs(w, inp, it, "RELATES_TO_VENDOR", "vendor", it.vendorRefs, "active", "active");
    BuildRefs(w, inp, it, "MITIGATES_RISK", "risk", it.riskRefs, RiskStatus(status), EdgeStatus(status));
    BuildGap(w, inp, it, IsExpired(it), "EXPIRED_BECAUSE", "replace_expired_evidence", "expired");
    BuildGap(w, inp, it, IsOwnerless(it), "OWNERLESS_BECAUSE", "assign_owner", "missing");
    BuildGap(w, inp, it, IsStale(it, inp.now), "STALE_BECAUSE", "refresh_stale_evidence", "stale");
    ItemLogs(inp, it, ns, es);
  }

  /** The pieces added for one item, put together. */
  lemma ItemLogs(inp: Input, it: Item, ns: seq<Node>, es: seq<Edge>)
    ensures ns + [EvidenceNode(inp, it)] + OwnerNodes(inp, it)
            + RefNodes(inp, it, "control", it.controlRefs, "active")
            + RefNodes(inp, it, "vendor", it.vendorRefs, "active")
            + RefNodes(inp, it, "risk", it.riskRefs, RiskStatus(CanonicalStatus(it, inp.now)))
            == ns + ItemNodes(inp, it)
    ensures es + OwnerEdges(inp, it)
            + RefEdges(inp, it, "SUPPORTS_CONTROL", "control", it.controlRefs, "active")
            + RefEdges(inp, it, "RELATES_TO_VENDOR", "vendor", it.vendorRefs, "active")
            + RefEdges(inp, it, "MITIGATES_RISK", "risk", it.riskRefs, EdgeStatus(CanonicalStatus(it, inp.now)))
            + GapEdges(inp, it, IsExpired(it), "EXPIRED_BECAUSE", "replace_expired_evidence", "expired")
            + GapEdges(inp, it, IsOwnerless(it), "OWNERLESS_BECAUSE", "assign_owner", "missing")
            + GapEdges(inp, it, IsStale(it, inp.now), "STALE_BECAUSE", "refresh_stale_evidence", "stale")
            == es + ItemEdges(inp, it)
  {
    hide EvidenceNode, CanonicalStatus, RiskStatus, EdgeStatus, IsOwnerless, IsStale, IsExpired, RefNodes, RefEdges,
      GapEdges, OwnerNodes, OwnerEdges;
    Append5(ns, [EvidenceNode(inp, it)], OwnerNodes(inp, it),
      RefNodes(inp, it, "control", it.controlRefs, "active"),
      RefNodes(inp, it, "vendor", it.vendorRefs, "active"),
      RefNodes(inp, it, "risk", it.riskRefs, RiskStatus(CanonicalStatus(it, inp.now))));
    Append7(es, OwnerEdges(inp, it),
      RefEdges(inp, it, "SUPPORTS_CONTROL", "control", it.controlRefs, "active"),
      RefEdges(inp, it, "RELATES_TO_VENDOR", "vendor", it.vendorRefs, "active"),
      RefEdges(inp, it, "MITIGATES_RISK", "risk", it.riskRefs, EdgeStatus(CanonicalStatus(it, inp.now))),
      GapEdges(inp, it, IsExpired(it), "EXPIRED_BECAUSE", "replace_expired_evidence", "expired"),
      GapEdges(inp, it, IsOwnerless(it), "OWNERLESS_BECAUSE", "assign_owner", "missing"),
      GapEdges(inp, it, IsStale(it, inp.now), "STALE_BECAUSE", "refresh_stale_evidence", "stale"));
  }

  method BuildEvidence(w: Work, inp: Input)
    requires w.Valid() && w.now == inp.now
    modifies w
    ensures Added(w, inp, FlatMap(inp.items, ItemNodesOf(inp)), FlatMap(inp.items, ItemEdgesOf(inp)))
  {
    hide ItemNodes, ItemEdges, FlatMap, Put;
    FlatMapEmpty(inp.items, ItemNodesOf(inp));
    FlatMapEmpty(inp.items, ItemEdgesOf(inp));
    for i := 0 to |inp.items|
      invariant Added(w, inp, FlatMap(inp.items[..i], ItemNodesOf(inp)), FlatMap(inp.items[..i], ItemEdgesOf(inp)))
    {
      BuildItem(w, inp, inp.items[i]);
      FlatMapNext(inp.items, i, ItemNodesOf(inp));
      FlatMapNext(inp.items, i, ItemEdgesOf(inp));
    }
    assert inp.items[..|inp.items|] == inp.items;
  }

  method BuildProofpacks(w: Work, inp: Input)
    requires w.Valid() && w.now == inp.now
    modifies w
    ensures Added(w, inp, FlatMap(inp.data.proofpacks, ProofpackNodesOf(inp)),
            FlatMap(inp.data.proofpacks, ProofpackEdgesOf(inp)))
  {
    hide FlatMap, ProofpackNodes, ProofpackEdges, KnownIDs, Put, FillNodes, FillEdges;
    var known := CollectIDs(inp.items);
    var ps := inp.data.proofpacks;
    FlatMapEmpty(ps, ProofpackNodesOf(inp));
    FlatMapEmpty(ps, ProofpackEdgesOf(inp));
    for i := 0 to |ps|
      invariant Added(w, inp, FlatMap(ps[..i], ProofpackNodesOf(inp)), FlatMap(ps[..i], ProofpackEdgesOf(inp)))
    {
      BuildProofpack(w, inp, ps[i], known);
      FlatMapNext(ps, i, ProofpackNodesOf(inp));
      FlatMapNext(ps, i, ProofpackEdgesOf(inp));
    }
    assert ps[..|ps|] == ps;
  }

  method CollectIDs(items: seq<Item>) returns (known: set<string>)
    ensures known == KnownIDs(items)
  {
    known := {};
    for i := 0 to |items|
      invariant known == KnownIDs(items[..i])
    {
      KnownSnoc(items, i);
      known := known + {items[i].id};
    }
    assert items[..|items|] == items;
  }

  lemma KnownSnoc(items: seq<Item>, i: nat)
    requires i < |items|
    ensures KnownIDs(items[..i + 1]) == KnownIDs(items[..i]) + {items[i].id}
  {
  }

  method BuildProofpack(w: Work, inp: Input, p: Proofpack, known: set<string>)
    requires w.Valid() && w.now == inp.now && known == KnownIDs(inp.items)
    modifies w
    ensures Added(w, inp, ProofpackNodes(inp, p), ProofpackEdges(inp, p))
  {
    hide FlatMap, ProofpackNodeID, EvidenceNodeID, Slugs.EdgeID, Put, FillNode, FillEdge, KnownIDs;
    var status := "active";
    if |p.evidenceIDs| == 0 {
      status := "degraded";
    }
    w.AddNode(MakeNode(inp, ProofpackNodeID(p.id), "proofpack", p.id, status, p.createdAt, p.createdAt));
    FlatMapEmpty(p.evidenceIDs, ManifestEdgeOf(inp, p));
    for k := 0 to |p.evidenceIDs|
      invariant Added(w, inp, ProofpackNodes(inp, p), FlatMap(p.evidenceIDs[..k], ManifestEdgeOf(inp, p)))
    {
      if p.evidenceIDs[k] in known {
        w.AddEdge(MakeEdge(inp, "INCLUDED_IN_PROOFPACK", EvidenceNodeID(p.evidenceIDs[k]), ProofpackNodeID(p.id),
          "active", p.createdAt));
      }
      FlatMapNext(p.evidenceIDs, k, ManifestEdgeOf(inp, p));
    }
    assert p.evidenceIDs[..|p.evidenceIDs|] == p.evidenceIDs;
  }

  method BuildReviews(w: Work, inp: Input)
    requires w.Valid() && w.now == inp.now
    modifies w
    ensures Added(w, inp, FlatMap(inp.data.reviews, ReviewNodesOf(inp)), FlatMap(inp.data.reviews, ReviewEdgesOf(inp)))
  {
    hide FlatMap, SnapshotNodeID, TenantNodeID, ReviewStatus, Slugs.EdgeID, Put, FillNode, FillEdge;
    var rs := inp.data.reviews;
    FlatMapEmpty(rs, ReviewNodesOf(inp));
    FlatMapEmpty(rs, ReviewEdgesOf(inp));
    for i := 0 to |rs|
      invariant Added(w, inp, FlatMap(rs[..i], ReviewNodesOf(inp)), FlatMap(rs[..i], ReviewEdgesOf(inp)))
    {
      var id := SnapshotNodeID(inp.formats, rs[i].lastReviewedAt, i);
      w.AddNode(MakeNode(inp, id, "snapshot", "Review snapshot " + inp.formats.date(rs[i].lastReviewedAt),
        ReviewStatus(rs[i]),
                         rs[i].generatedAt, rs[i].lastReviewedAt));
      w.AddEdge(MakeEdge(inp, "APPEARS_IN_SNAPSHOT", TenantNodeID(inp.tenantID), id, "active", rs[i].generatedAt));
      FlatMapNext(rs, i, ReviewNodesOf(inp));
      FlatMapNext(rs, i, ReviewEdgesOf(inp));
    }
    assert rs[..|rs|] == rs;
  }

  method BuildEvents(w: Work, inp: Input)
    requires w.Valid() && w.now == inp.now
    modifies w
    ensures Added(w, inp, FlatMap(inp.data.events, EventNodesOf(inp)), FlatMap(inp.data.events, EventEdgesOf(inp)))
  {
    hide FlatMap, EventNodeID, TenantNodeID, EvidenceNodeID, Slugs.EdgeID, Put, FillNode, FillEdge;
    var evs := inp.data.events;
    FlatMapEmpty(evs, EventNodesOf(inp));
    FlatMapEmpty(evs, EventEdgesOf(inp));
    for i := 0 to |evs|
      invariant Added(w, inp, FlatMap(evs[..i], EventNodesOf(inp)), FlatMap(evs[..i], EventEdgesOf(inp)))
    {
      var id := EventNodeID(inp.formats, evs[i], i);
      w.AddNode(MakeNode(inp, id, "operational_event", evs[i].typ, "active", evs[i].createdAt, evs[i].createdAt));
      var source := TenantNodeID(inp.tenantID);
      if evs[i].entityID != "" {
        source := EvidenceNodeID(evs[i].entityID);
      }
      w.AddEdge(MakeEdge(inp, "GENERATED_EVENT", source, id, "active", evs[i].createdAt));
      FlatMapNext(evs, i, EventNodesOf(inp));
      FlatMapNext(evs, i, EventEdgesOf(inp));
    }
    assert evs[..|evs|] == evs;
  }

  method BuildReports(w: Work, inp: Input)
    requires w.Valid() && w.now == inp.now
    modifies w
    ensures Added(w, inp, FlatMap(inp.data.reports, ReportNodesOf(inp)), FlatMap(inp.data.reports, ReportEdgesOf(inp)))
  {
    hide FlatMap, ReportNodeID, TenantNodeID, Slugs.EdgeID, Put, FillNode, FillEdge;
    var rs := inp.data.reports;
    FlatMapEmpty(rs, ReportNodesOf(inp));
    FlatMapEmpty(rs, ReportEdgesOf(inp));
    for i := 0 to |rs|
      invariant Added(w, inp, FlatMap(rs[..i], ReportNodesOf(inp)), FlatMap(rs[..i], ReportEdgesOf(inp)))
    {
      var id := ReportNodeID(rs[i].id);
      w.AddNode(MakeNode(inp, id, "review_report", rs[i].id, "active", rs[i].generatedAt, rs[i].generatedAt));
      w.AddEdge(MakeEdge(inp, "REVIEWED_IN", TenantNodeID(inp.tenantID), id, "active", rs[i].generatedAt));
      FlatMapNext(rs, i, ReportNodesOf(inp));
      FlatMapNext(rs, i, ReportEdgesOf(inp));
    }
    assert rs[..|rs|] == rs;
  }

  method BuildComparison(w: Work, inp: Input)
    requires w.Valid() && w.now == inp.now
    modifies w
    ensures Added(w, inp, ComparisonNodes(inp), ComparisonEdges(inp))
  {
    hide SnapshotNodeID, Slugs.EdgeID, Put, FillNode, FillEdge;
    var rs := inp.data.reviews;
    if |rs| < 2 {
      w.AddNode(MakeNode(inp, NOT_COMPARABLE_ID, "review_comparison", "Review comparison unavailable",
        "not_comparable", inp.now, inp.now));
      return;
    }
    var state := "active";
    if rs[0].unresolvedIssues > rs[1].unresolvedIssues || rs[0].healthScore < rs[1].healthScore - 2 {
      state := "unresolved";
    }
    w.AddNode(MakeNode(inp, LATEST_PREVIOUS_ID, "review_comparison", "Latest vs previous review", state,
      rs[0].generatedAt, rs[0].generatedAt));
    w.AddEdge(MakeEdge(inp, "COMPARED_WITH", SnapshotNodeID(inp.formats, rs[0].lastReviewedAt, 0),
                       SnapshotNodeID(inp.formats, rs[1].lastReviewedAt, 1), state, rs[0].generatedAt));
  }

  method BuildPilotAndExports(w: Work, inp: Input)
    requires w.Valid() && w.now == inp.now
    modifies w
    ensures Added(w, inp, PilotNodes(inp) + FlatMap(EXPORT_KINDS, ExportNodesOf(inp)),
            FlatMap(EXPORT_KINDS, ExportEdgesOf(inp)))
  {
    hide FlatMap, ExportNodeID, PilotNodeID, TenantNodeID, Slugs.EdgeID, Put, FillNode, FillEdge;
    var readiness := "degraded";
    if |inp.data.reviews| >= 4 && |inp.data.proofpacks| > 0 {
      readiness := "active";
    } else if |inp.data.reviews| >= 2 {
      readiness := "not_comparable";
    }
    w.AddNode(MakeNode(inp, PilotNodeID(inp.tenantID), "pilot_readiness", "Pilot readiness", readiness, inp.now,
      inp.now));
    var kinds := EXPORT_KINDS;
    FlatMapEmpty(kinds, ExportNodesOf(inp));
    FlatMapEmpty(kinds, ExportEdgesOf(inp));
    for i := 0 to |kinds|
      invariant Added(w, inp, PilotNodes(inp) + FlatMap(kinds[..i], ExportNodesOf(inp)),
                FlatMap(kinds[..i], ExportEdgesOf(inp)))
    {
      var id := ExportNodeID(kinds[i]);
      w.AddNode(MakeNode(inp, id, "export", "Evidence graph " + kinds[i] + " export", "active", inp.now, inp.now));
      w.AddEdge(MakeEdge(inp, "READY_FOR_EXPORT", TenantNodeID(inp.tenantID), id, "active", inp.now));
      FlatMapNext(kinds, i, ExportNodesOf(inp));
      FlatMapNext(kinds, i, ExportEdgesOf(inp));
    }
    assert kinds[..|kinds|] == kinds;
  }

  method BuildNarratives(w: Work, inp: Input)
    requires w.Valid() && w.now == inp.now
    modifies w
    ensures Added(w, inp, FlatMap(inp.narratives, NarrativeNodesOf(inp)),
            FlatMap(inp.narratives, NarrativeEdgesOf(inp)))
  {
    hide FlatMap, NarrativeNodeID, TenantNodeID, Slugs.EdgeID, Put, FillNode, FillEdge;
    var ns := inp.narratives;
    FlatMapEmpty(ns, NarrativeNodesOf(inp));
    FlatMapEmpty(ns, NarrativeEdgesOf(inp));
    for i := 0 to |ns|
      invariant Added(w, inp, FlatMap(ns[..i], NarrativeNodesOf(inp)), FlatMap(ns[..i], NarrativeEdgesOf(inp)))
    {
      var id := NarrativeNodeID(ns[i], i);
      w.AddNode(MakeNode(inp, id, "narrative", ns[i].scope, "active", ns[i].generatedAt, ns[i].generatedAt));
      w.AddEdge(MakeEdge(inp, "PRODUCED_NARRATIVE", TenantNodeID(inp.tenantID), id, "active", ns[i].generatedAt));
      FlatMapNext(ns, i, NarrativeNodesOf(inp));
      FlatMapNext(ns, i, NarrativeEdgesOf(inp));
    }
    assert ns[..|ns|] == ns;
  }

  method BuildHistory(w: Work, inp: Input)
    requires w.Valid() && w.now == inp.now
    modifies w
    ensures Added(w, inp, HistoryNodes(inp), HistoryEdges(inp))
  {
    hide FlatMap, ComparisonNodes, ComparisonEdges, PilotNodes, Put;
    ghost var ns, es := w.nodeLog, w.edgeLog;
    BuildReviews(w, inp);
    BuildEvents(w, inp);
    BuildReports(w, inp);
    BuildComparison(w, inp);
    BuildPilotAndExports(w, inp);
    BuildNarratives(w, inp);
    Append6(ns, FlatMap(inp.data.reviews, ReviewNodesOf(inp)), FlatMap(inp.data.events, EventNodesOf(inp)),
      FlatMap(inp.data.reports, ReportNodesOf(inp)), ComparisonNodes(inp),
      PilotNodes(inp) + FlatMap(EXPORT_KINDS, ExportNodesOf(inp)), FlatMap(inp.narratives, NarrativeNodesOf(inp)));
    Append6(es, FlatMap(inp.data.reviews, ReviewEdgesOf(inp)), FlatMap(inp.data.events, EventEdgesOf(inp)),
      FlatMap(inp.data.reports, ReportEdgesOf(inp)), ComparisonEdges(inp),
      FlatMap(EXPORT_KINDS, ExportEdgesOf(inp)), FlatMap(inp.narratives, NarrativeEdgesOf(inp)));
  }

  lemma Append6<T>(s: seq<T>, a: seq<T>, b: seq<T>, c: seq<T>, d: seq<T>, e: seq<T>, f: seq<T>)
    ensures s + a + b + c + d + e + f == s + (a + b + c + d + e + f)
  {
  }

  // ---- Next actions ---------------------------------------------------------

  method CollectActions(inp: Input) returns (out: seq<Action>)
    ensures out == NextActions(inp)
  {
    hide FlatMap, ItemActions, Sorting.StableSort, TenantNodeID, PilotNodeID, ActionID;
    out := [];
    FlatMapEmpty(inp.items, ItemActionsOf(inp.now));
    for i := 0 to |inp.items|
      invariant out == FlatMap(inp.items[..i], ItemActionsOf(inp.now))
    {
      var more := CollectItemActions(inp.now, inp.items[i]);
      out := out + more;
      FlatMapNext(inp.items, i, ItemActionsOf(inp.now));
    }
    assert inp.items[..|inp.items|] == inp.items;
    ghost var fromItems := out;
    var more := CollectTenantActions(inp);
    out := SortActions(out + more);
  }

  method CollectItemActions(now: Instant, it: Item) returns (out: seq<Action>)
    ensures out == ItemActions(now, it)
  {
    hide ItemAction, IsOwnerless, IsStale, IsExpired;
    out := CollectGapActions(now, it);
    var more := CollectMappingActions(it);
    out := out + more;
  }

  method CollectGapActions(now: Instant, it: Item) returns (out: seq<Action>)
    ensures out
            == ItemAction(IsExpired(it), "replace_expired_evidence", "expired", 25, "Replace expired evidence: ", it)
               + ItemAction(IsOwnerless(it), "assign_owner", "ownerless", 18, "Assign owner to ", it)
               + ItemAction(IsStale(it, now), "refresh_stale_evidence", "stale", 12, "Refresh stale evidence: ", it)
  {
    hide EvidenceNodeID, ActionID, IsOwnerless, IsStale;
    var id := EvidenceNodeID(it.id);
    out := [];
    if it.status == "expired" {
      out := out + [Action(ActionID("replace_expired_evidence", it.id), "replace_expired_evidence",
        "Replace expired evidence: " + it.title, "expired", 25, [id])];
    }
    if IsOwnerless(it) {
      out := out + [Action(ActionID("assign_owner", it.id), "assign_owner", "Assign owner to " + it.title,
        "ownerless", 18, [id])];
    }
    if IsStale(it, now) {
      out := out + [Action(ActionID("refresh_stale_evidence", it.id), "refresh_stale_evidence",
        "Refresh stale evidence: " + it.title, "stale", 12, [id])];
    }
  }

  method CollectMappingActions(it: Item) returns (out: seq<Action>)
    ensures out
            == ItemAction(it.controlRefs == [], "add_control_mapping", "missing", 10, "Add control mapping for ", it)
               + ItemAction(it.vendorRefs == [], "add_vendor_mapping", "missing", 7, "Add vendor mapping for ", it)
  {
    hide EvidenceNodeID, ActionID;
    var id := EvidenceNodeID(it.id);
    out := [];
    if |it.controlRefs| == 0 {
      out := out + [Action(ActionID("add_control_mapping", it.id), "add_control_mapping",
        "Add control mapping for " + it.title, "missing", 10, [id])];
    }
    if |it.vendorRefs| == 0 {
      out := out + [Action(ActionID("add_vendor_mapping", it.id), "add_vendor_mapping",
        "Add vendor mapping for " + it.title, "missing", 7, [id])];
    }
  }

  method CollectTenantActions(inp: Input) returns (out: seq<Action>)
    ensures out == TenantActions(inp.tenantID, inp.data)
  {
    hide TenantNodeID, PilotNodeID, ActionID;
    var t, d := inp.tenantID, inp.data;
    out := [];
    if |d.proofpacks| == 0 {
      out := out + [Action(ActionID("create_proofpack", t), "create_proofpack", "Create first proofpack", "missing",
        16, [TenantNodeID(t)])];
    }
    if |d.reviews| == 0 {
      out := out + [Action(ActionID("complete_review", t), "complete_review", "Complete first operational review",
        "missing", 20, [TenantNodeID(t)])];
    }
    if |d.reviews| < 2 {
      out := out + [Action(ActionID("compare_reviews", t), "compare_reviews", "Generate enough reviews to compare",
        "not_comparable", 11, [NOT_COMPARABLE_ID])];
    }
    if |d.reviews| >= 4 && |d.proofpacks| > 0 {
      out := out + [Action(ActionID("generate_pilot_proof_bundle", t), "generate_pilot_proof_bundle",
        "Export pilot proof bundle", "active", 9, [PilotNodeID(t)])];
    }
    out := out + [Action(ActionID("export_graph", t), "export_graph", "Export evidence graph", "active", 6,
      [TenantNodeID(t)])];
  }

  method BuildAction(w: Work, inp: Input, a: Action)
    requires w.Valid() && w.now == inp.now
    modifies w
    ensures Added(w, inp, ActionNodes(inp, a), ActionEdges(inp, a))
  {
    hide FlatMap, ActionNodeID, EdgeStatus, Slugs.EdgeID, Put, FillNode, FillEdge;
    w.AddNode(MakeNode(inp, ActionNodeID(a.id), "action", a.title, a.severity, inp.now, inp.now));
    FlatMapEmpty(a.targets, TargetEdgesOf(inp, a));
    for k := 0 to |a.targets|
      invariant Added(w, inp, ActionNodes(inp, a), FlatMap(a.targets[..k], TargetEdgesOf(inp, a)))
    {
      w.AddEdge(MakeEdge(inp, "REQUIRES_ACTION", a.targets[k], ActionNodeID(a.id), EdgeStatus(a.severity), inp.now));
      FlatMapNext(a.targets, k, TargetEdgesOf(inp, a));
    }
    assert a.targets[..|a.targets|] == a.targets;
  }

  method BuildActions(w: Work, inp: Input, actions: seq<Action>)
    requires w.Valid() && w.now == inp.now
    modifies w
    ensures Added(w, inp, FlatMap(actions, ActionNodesOf(inp)), FlatMap(actions, ActionEdgesOf(inp)))
  {
    hide FlatMap, ActionEdges, ActionNodes, Put;
    FlatMapEmpty(actions, ActionNodesOf(inp));
    FlatMapEmpty(actions, ActionEdgesOf(inp));
    for i := 0 to |actions|
      invariant Added(w, inp, FlatMap(actions[..i], ActionNodesOf(inp)), FlatMap(actions[..i], ActionEdgesOf(inp)))
    {
      BuildAction(w, inp, actions[i]);
      FlatMapNext(actions, i, ActionNodesOf(inp));
      FlatMapNext(actions, i, ActionEdgesOf(inp));
    }
    assert actions[..|actions|] == actions;
  }

  /** Everything `Build` stores. */
  method FillWork(w: Work, inp: Input) returns (actions: seq<Action>)
    requires w.Valid() && w.now == inp.now && w.nodeLog == [] && w.edgeLog == []
    modifies w
    ensures w.Valid() && w.nodeLog == NodeLog(inp) && w.edgeLog == EdgeLog(inp)
    ensures w.now == inp.now && actions == NextActions(inp)
  {
    hide FlatMap, HistoryNodes, HistoryEdges, TenantNode, NextActions, Put;
    w.AddNode(TenantNode(inp));
    BuildEvidence(w, inp);
    BuildProofpacks(w, inp);
    BuildHistory(w, inp);
    actions := CollectActions(inp);
    BuildActions(w, inp, actions);
  }
}

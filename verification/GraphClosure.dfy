/** The ends of every justified edge are nodes, with one exact exception. */
module GraphClosure {
  import Slugs
  import Text
  import Records
  import opened Evidence
  import Sorting
  import opened GraphModel
  import opened GraphRefs
  import opened GraphSources

  ghost predicate HasID(ns: seq<Node>, id: string) {
    exists k :: 0 <= k < |ns| && ns[k].id == id
  }

  lemma HasIDConcat(a: seq<Node>, b: seq<Node>, id: string)
    ensures HasID(a + b, id) <==> HasID(a, id) || HasID(b, id)
  {
    if HasID(a, id) {
      var k :| 0 <= k < |a| && a[k].id == id;
      assert (a + b)[k].id == id;
    }
    if HasID(b, id) {
      var k :| 0 <= k < |b| && b[k].id == id;
      assert (a + b)[|a| + k].id == id;
    }
  }

  ghost predicate SomeHasID<T>(s: seq<T>, f: (nat, T) -> seq<Node>, id: string) {
    exists i :: 0 <= i < |s| && HasID(f(i, s[i]), id)
  }

  lemma {:induction false} HasIDFlatMap<T>(s: seq<T>, f: (nat, T) -> seq<Node>, id: string)
    ensures HasID(FlatMap(s, f), id) <==> SomeHasID(s, f, id)
  {
    if s != [] {
      var n := |s| - 1;
      HasIDFlatMap(s[..n], f, id);
      HasIDConcat(FlatMap(s[..n], f), f(n, s[n]), id);
      if SomeHasID(s[..n], f, id) {
        var i :| 0 <= i < n && HasID(f(i, s[..n][i]), id);
        assert HasID(f(i, s[i]), id);
      }
      if SomeHasID(s, f, id) {
        var i :| 0 <= i < |s| && HasID(f(i, s[i]), id);
        if i < n {
          assert HasID(f(i, s[..n][i]), id);
        }
      }
    }
  }

  lemma HasIDOne(n: Node, id: string)
    ensures HasID([n], id) <==> n.id == id
    ensures !HasID([], id)
  {
    if n.id == id {
      assert [n][0].id == id;
    }
  }

  /** The pieces of the node log. */
  lemma NodePieces(inp: Input, id: string)
    ensures HasID(NodeLog(inp), id) <==>
            || TenantNodeID(inp.tenantID) == id
            || HasID(FlatMap(inp.items, ItemNodesOf(inp)), id)
            || HasID(FlatMap(inp.data.proofpacks, ProofpackNodesOf(inp)), id)
            || HasID(HistoryNodes(inp), id)
            || HasID(FlatMap(NextActions(inp), ActionNodesOf(inp)), id)
  {
    hide FlatMap, NextActions, HistoryNodes, HasID, TenantNodeID;
    var a, b, c := [TenantNode(inp)], FlatMap(inp.items, ItemNodesOf(inp)),
      FlatMap(inp.data.proofpacks, ProofpackNodesOf(inp));
    HasIDOne(TenantNode(inp), id);
    HasIDConcat(a, b, id);
    HasIDConcat(a + b, c, id);
    HasIDConcat(a + b + c, HistoryNodes(inp), id);
    HasIDConcat(a + b + c + HistoryNodes(inp), FlatMap(NextActions(inp), ActionNodesOf(inp)), id);
  }

  lemma HistoryPieces(inp: Input, id: string)
    ensures HasID(HistoryNodes(inp), id) <==>
            || HasID(FlatMap(inp.data.reviews, ReviewNodesOf(inp)), id)
            || HasID(FlatMap(inp.data.events, EventNodesOf(inp)), id)
            || HasID(FlatMap(inp.data.reports, ReportNodesOf(inp)), id)
            || HasID(ComparisonNodes(inp), id)
            || PilotNodeID(inp.tenantID) == id
            || HasID(FlatMap(EXPORT_KINDS, ExportNodesOf(inp)), id)
            || HasID(FlatMap(inp.narratives, NarrativeNodesOf(inp)), id)
  {
    hide FlatMap, ComparisonNodes, HasID, PilotNodeID, Readiness;
    var a, b, c, d, e, f := FlatMap(inp.data.reviews, ReviewNodesOf(inp)), FlatMap(inp.data.events, EventNodesOf(inp)),
      FlatMap(inp.data.reports, ReportNodesOf(inp)), ComparisonNodes(inp), PilotNodes(inp),
        FlatMap(EXPORT_KINDS, ExportNodesOf(inp));
    HasIDConcat(a, b, id);
    HasIDConcat(a + b, c, id);
    HasIDConcat(a + b + c, d, id);
    HasIDConcat(a + b + c + d, e, id);
    HasIDOne(PilotNodes(inp)[0], id);
    HasIDConcat(a + b + c + d + e, f, id);
    HasIDConcat(a + b + c + d + e + f, FlatMap(inp.narratives, NarrativeNodesOf(inp)), id);
  }

  // ---- Nodes that are there -------------------------------------------------

  lemma ItemPieces(inp: Input, it: Records.Item, id: string)
    ensures HasID(ItemNodes(inp, it), id) <==>
            || EvidenceNodeID(it.id) == id
            || (!IsOwnerless(it) && OwnerNodeID(it) == id)
            || HasID(RefNodes(inp, it, "control", it.controlRefs, "active"), id)
            || HasID(RefNodes(inp, it, "vendor", it.vendorRefs, "active"), id)
            || HasID(RefNodes(inp, it, "risk", it.riskRefs, RiskStatus(CanonicalStatus(it, inp.now))), id)
  {
    hide EvidenceNodeID, OwnerNodeID, OwnerLabel, IsOwnerless, RefNodes, RiskStatus, CanonicalStatus, HasID;
    var a, b, c, d := [EvidenceNode(inp, it)], OwnerNodes(inp, it),
      RefNodes(inp, it, "control", it.controlRefs, "active"),
      RefNodes(inp, it, "vendor", it.vendorRefs, "active");
    HasIDOne(EvidenceNode(inp, it), id);
    HasIDConcat(a, b, id);
    HasIDConcat(a + b, c, id);
    HasIDConcat(a + b + c, d, id);
    HasIDConcat(a + b + c + d, RefNodes(inp, it, "risk", it.riskRefs, RiskStatus(CanonicalStatus(it, inp.now))), id);
    HasIDOne(MakeNode(inp, OwnerNodeID(it), "owner", OwnerLabel(it), "active", it.createdAt, it.updatedAt), id);
  }

  lemma RefPieces(inp: Input, it: Records.Item, typ: string, refs: seq<string>, status: string, id: string)
    ensures HasID(RefNodes(inp, it, typ, refs, status), id) <==>
            exists k :: 0 <= k < |refs| && TypedNodeID(typ, refs[k]) == id
  {
    hide TypedNodeID;
    var ns := RefNodes(inp, it, typ, refs, status);
    forall k | 0 <= k < |refs|
      ensures ns[k].id == TypedNodeID(typ, refs[k])
    {
    }
  }

  /** A node of one item is a node of the graph. */
  lemma ItemNodeIsThere(inp: Input, i: nat, id: string)
    requires i < |inp.items| && HasID(ItemNodes(inp, inp.items[i]), id)
    ensures HasID(NodeLog(inp), id)
  {
    hide FlatMap, ItemNodes, HasID, NodeLog, NextActions, HistoryNodes;
    HasIDFlatMap(inp.items, ItemNodesOf(inp), id);
    assert HasID(ItemNodesOf(inp)(i, inp.items[i]), id);
    NodePieces(inp, id);
  }

  lemma EvidenceNodeIsThere(inp: Input, i: nat)
    requires i < |inp.items|
    ensures HasID(NodeLog(inp), EvidenceNodeID(inp.items[i].id))
  {
    hide *;
    ItemPieces(inp, inp.items[i], EvidenceNodeID(inp.items[i].id));
    ItemNodeIsThere(inp, i, EvidenceNodeID(inp.items[i].id));
  }

  lemma ProofpackNodeIsThere(inp: Input, i: nat)
    requires i < |inp.data.proofpacks|
    ensures HasID(NodeLog(inp), ProofpackNodeID(inp.data.proofpacks[i].id))
  {
    hide FlatMap, HasID, NodeLog, NextActions, HistoryNodes, ProofpackNodeID;
    var p := inp.data.proofpacks[i];
    var id := ProofpackNodeID(p.id);
    HasIDOne(ProofpackNodes(inp, p)[0], id);
    assert HasID(ProofpackNodesOf(inp)(i, p), id);
    HasIDFlatMap(inp.data.proofpacks, ProofpackNodesOf(inp), id);
    NodePieces(inp, id);
  }

  lemma HistoryNodeIsThere(inp: Input, id: string)
    requires HasID(HistoryNodes(inp), id)
    ensures HasID(NodeLog(inp), id)
  {
    hide *;
    NodePieces(inp, id);
  }

  lemma TenantNodeIsThere(inp: Input)
    ensures HasID(NodeLog(inp), TenantNodeID(inp.tenantID))
    ensures HasID(NodeLog(inp), PilotNodeID(inp.tenantID))
  {
    hide *;
    NodePieces(inp, TenantNodeID(inp.tenantID));
    HistoryPieces(inp, PilotNodeID(inp.tenantID));
    HistoryNodeIsThere(inp, PilotNodeID(inp.tenantID));
  }

  lemma ReviewNodeIsThere(inp: Input, i: nat)
    requires i < |inp.data.reviews|
    ensures HasID(NodeLog(inp), SnapshotNodeID(inp.formats, inp.data.reviews[i].lastReviewedAt, i))
  {
    hide FlatMap, HasID, NodeLog, HistoryNodes, SnapshotNodeID, ReviewStatus;
    var r := inp.data.reviews[i];
    var id := SnapshotNodeID(inp.formats, r.lastReviewedAt, i);
    HasIDOne(ReviewNodes(inp, i, r)[0], id);
    assert HasID(ReviewNodesOf(inp)(i, r), id);
    HasIDFlatMap(inp.data.reviews, ReviewNodesOf(inp), id);
    HistoryPieces(inp, id);
    HistoryNodeIsThere(inp, id);
  }

  lemma EventNodeIsThere(inp: Input, i: nat)
    requires i < |inp.data.events|
    ensures HasID(NodeLog(inp), EventNodeID(inp.formats, inp.data.events[i], i))
  {
    hide FlatMap, HasID, NodeLog, HistoryNodes, EventNodeID;
    var ev := inp.data.events[i];
    var id := EventNodeID(inp.formats, ev, i);
    HasIDOne(EventNodes(inp, i, ev)[0], id);
    assert HasID(EventNodesOf(inp)(i, ev), id);
    HasIDFlatMap(inp.data.events, EventNodesOf(inp), id);
    HistoryPieces(inp, id);
    HistoryNodeIsThere(inp, id);
  }

  lemma ReportNodeIsThere(inp: Input, i: nat)
    requires i < |inp.data.reports|
    ensures HasID(NodeLog(inp), ReportNodeID(inp.data.reports[i].id))
  {
    hide FlatMap, HasID, NodeLog, HistoryNodes, ReportNodeID;
    var r := inp.data.reports[i];
    var id := ReportNodeID(r.id);
    HasIDOne(ReportNodes(inp, r)[0], id);
    assert HasID(ReportNodesOf(inp)(i, r), id);
    HasIDFlatMap(inp.data.reports, ReportNodesOf(inp), id);
    HistoryPieces(inp, id);
    HistoryNodeIsThere(inp, id);
  }

  lemma ComparisonNodeIsThere(inp: Input)
    ensures HasID(NodeLog(inp), if |inp.data.reviews| < 2 then NOT_COMPARABLE_ID else LATEST_PREVIOUS_ID)
  {
    hide FlatMap, HasID, NodeLog, HistoryNodes, ComparisonStatus;
    var id := if |inp.data.reviews| < 2 then NOT_COMPARABLE_ID else LATEST_PREVIOUS_ID;
    HasIDOne(ComparisonNodes(inp)[0], id);
    HistoryPieces(inp, id);
    HistoryNodeIsThere(inp, id);
  }

  lemma ExportNodeIsThere(inp: Input, i: nat)
    requires i < |EXPORT_KINDS|
    ensures HasID(NodeLog(inp), ExportNodeID(EXPORT_KINDS[i]))
  {
    hide FlatMap, HasID, NodeLog, HistoryNodes, ExportNodeID;
    var kind := EXPORT_KINDS[i];
    var id := ExportNodeID(kind);
    HasIDOne(ExportNodes(inp, kind)[0], id);
    assert HasID(ExportNodesOf(inp)(i, kind), id);
    HasIDFlatMap(EXPORT_KINDS, ExportNodesOf(inp), id);
    HistoryPieces(inp, id);
    HistoryNodeIsThere(inp, id);
  }

  lemma NarrativeNodeIsThere(inp: Input, i: nat)
    requires i < |inp.narratives|
    ensures HasID(NodeLog(inp), NarrativeNodeID(inp.narratives[i], i))
  {
    hide FlatMap, HasID, NodeLog, HistoryNodes, NarrativeNodeID;
    var n := inp.narratives[i];
    var id := NarrativeNodeID(n, i);
    HasIDOne(NarrativeNodes(inp, i, n)[0], id);
    assert HasID(NarrativeNodesOf(inp)(i, n), id);
    HasIDFlatMap(inp.narratives, NarrativeNodesOf(inp), id);
    HistoryPieces(inp, id);
    HistoryNodeIsThere(inp, id);
  }

  lemma ActionNodeIsThere(inp: Input, i: nat)
    requires i < |NextActions(inp)|
    ensures HasID(NodeLog(inp), ActionNodeID(NextActions(inp)[i].id))
  {
    hide FlatMap, HasID, NodeLog, NextActions, HistoryNodes, ActionNodeID;
    var a := NextActions(inp)[i];
    var id := ActionNodeID(a.id);
    HasIDOne(ActionNodes(inp, a)[0], id);
    assert HasID(ActionNodesOf(inp)(i, a), id);
    HasIDFlatMap(NextActions(inp), ActionNodesOf(inp), id);
    NodePieces(inp, id);
  }

  // ---- Actions --------------------------------------------------------------

  lemma ActionOrigin(inp: Input, a: Action)
    ensures a in NextActions(inp) <==>
            (exists i :: 0 <= i < |inp.items| && a in ItemActions(inp.now, inp.items[i]))
              || a in TenantActions(inp.tenantID, inp.data)
  {
    hide FlatMap, Sorting.StableSort, ItemActions, TenantActions, ActionLess;
    Sorting.SortIsPermutation(RawActions(inp), ActionLess);
    Sorting.SameMembers(NextActions(inp), RawActions(inp));
    FlatMapMembers(inp.items, ItemActionsOf(inp.now));
    forall i | 0 <= i < |inp.items|
      ensures ItemActionsOf(inp.now)(i, inp.items[i]) == ItemActions(inp.now, inp.items[i])
    {
    }
  }

  /** The action that mends a gap is listed. */
  lemma GapActionIsThere(inp: Input, i: nat, gap: bool, typ: string, severity: string, impact: int, title: string)
    requires i < |inp.items| && gap
    requires forall a :: a in ItemAction(gap, typ, severity, impact, title, inp.items[i]) ==>
             a in ItemActions(inp.now, inp.items[i])
    ensures HasID(NodeLog(inp), ActionNodeID(ActionID(typ, inp.items[i].id)))
  {
    hide HasID, NodeLog, NextActions, ItemActions, ActionNodeID, ActionID, EvidenceNodeID;
    var a := ItemAction(gap, typ, severity, impact, title, inp.items[i])[0];
    assert a in ItemAction(gap, typ, severity, impact, title, inp.items[i]);
    ActionOrigin(inp, a);
    var k :| 0 <= k < |NextActions(inp)| && NextActions(inp)[k] == a;
    ActionNodeIsThere(inp, k);
  }

  /** Every target of a listed action is a node. */
  lemma ActionTargetsAreThere(inp: Input, a: Action, k: nat)
    requires a in NextActions(inp) && k < |a.targets|
    ensures HasID(NodeLog(inp), a.targets[k])
  {
    hide HasID, NodeLog, NextActions, ItemActions, TenantActions;
    ActionOrigin(inp, a);
    if a in TenantActions(inp.tenantID, inp.data) {
      TenantTargets(inp, a);
      TenantNodeIsThere(inp);
      ComparisonNodeIsThere(inp);
    } else {
      var i :| 0 <= i < |inp.items| && a in ItemActions(inp.now, inp.items[i]);
      ItemTargets(inp.now, inp.items[i], a);
      EvidenceNodeIsThere(inp, i);
    }
  }

  lemma ItemTargets(now: Records.Instant, it: Records.Item, a: Action)
    requires a in ItemActions(now, it)
    ensures a.targets == [EvidenceNodeID(it.id)]
  {
    hide EvidenceNodeID, ActionID, IsOwnerless, IsStale;
  }

  lemma TenantTargets(inp: Input, a: Action)
    requires a in TenantActions(inp.tenantID, inp.data)
    ensures a.targets == [TenantNodeID(inp.tenantID)] || a.targets == [PilotNodeID(inp.tenantID)]
            || (a.targets == [NOT_COMPARABLE_ID] && |inp.data.reviews| < 2)
  {
  }

  // ---- Which evidence nodes there are ---------------------------------------

  /** Some listed item has the same slug. */
  ghost predicate Listed(inp: Input, id: string) {
    exists i :: 0 <= i < |inp.items| && Slugs.Slug(inp.items[i].id) == Slugs.Slug(id)
  }

  /** Every node identifier is one of the builder's, and those of evidence nodes belong to listed items. */
  ghost predicate IsNodeRef(inp: Input, r: NodeRef, id: string) {
    && ValidRef(r)
    && RefID(inp.formats, r) == id
    && (r.TypedRef? && r.typ == EVIDENCE ==> Listed(inp, r.text))
  }

  ghost predicate HasRef(inp: Input, id: string) {
    exists r :: IsNodeRef(inp, r, id)
  }

  lemma OtherRef(inp: Input, r: NodeRef, id: string)
    requires ValidRef(r) && RefID(inp.formats, r) == id
    requires r.TypedRef? ==> r.typ != EVIDENCE
    ensures HasRef(inp, id)
  {
    hide RefID, ValidRef;
    assert IsNodeRef(inp, r, id);
  }

  lemma ItemIDIsRef(inp: Input, i: nat, id: string)
    requires i < |inp.items| && HasID(ItemNodes(inp, inp.items[i]), id)
    ensures HasRef(inp, id)
  {
    hide HasID, HasRef, TypedNodeID, IsOwnerless, RefNodes, RiskStatus, CanonicalStatus, ItemNodes, Text.TrimSpace;
    var it := inp.items[i];
    ItemPieces(inp, it, id);
    if EvidenceNodeID(it.id) == id {
      ListedRef(inp, i);
    } else if !IsOwnerless(it) && OwnerNodeID(it) == id {
      OtherRef(inp, TypedRef(OWNER, if Text.TrimSpace(it.ownerEmail) == "" then Text.TrimSpace(it.ownerName)
        else Text.TrimSpace(it.ownerEmail)), id);
    } else if HasID(RefNodes(inp, it, "control", it.controlRefs, "active"), id) {
      ReferenceIDIsRef(inp, it, CONTROL, it.controlRefs, "active", id);
    } else if HasID(RefNodes(inp, it, "vendor", it.vendorRefs, "active"), id) {
      ReferenceIDIsRef(inp, it, VENDOR, it.vendorRefs, "active", id);
    } else {
      ReferenceIDIsRef(inp, it, RISK, it.riskRefs, RiskStatus(CanonicalStatus(it, inp.now)), id);
    }
  }

  lemma ListedRef(inp: Input, i: nat)
    requires i < |inp.items|
    ensures HasRef(inp, EvidenceNodeID(inp.items[i].id))
  {
    hide TypedNodeID, Slugs.Slug;
    assert Listed(inp, inp.items[i].id);
    assert IsNodeRef(inp, TypedRef(EVIDENCE, inp.items[i].id), EvidenceNodeID(inp.items[i].id));
  }

  lemma ReferenceIDIsRef(inp: Input, it: Records.Item, typ: NodeType, refs: seq<string>, status: string, id: string)
    requires typ != EVIDENCE && HasID(RefNodes(inp, it, TypeName(typ), refs, status), id)
    ensures HasRef(inp, id)
  {
    hide HasID, HasRef, TypedNodeID, TypeName, RefNodes;
    RefPieces(inp, it, TypeName(typ), refs, status, id);
    var k :| 0 <= k < |refs| && TypedNodeID(TypeName(typ), refs[k]) == id;
    OtherRef(inp, TypedRef(typ, refs[k]), id);
  }

  lemma RecordIDIsRef(inp: Input, id: string)
    requires || HasID(FlatMap(inp.data.reviews, ReviewNodesOf(inp)), id)
             || HasID(FlatMap(inp.data.events, EventNodesOf(inp)), id)
             || HasID(FlatMap(inp.data.reports, ReportNodesOf(inp)), id)
    ensures HasRef(inp, id)
  {
    hide HasID, HasRef, FlatMap, TypedNodeID, SnapshotNodeID, EventNodeID, ReviewStatus;
    if HasID(FlatMap(inp.data.reviews, ReviewNodesOf(inp)), id) {
      var rs := inp.data.reviews;
      HasIDFlatMap(rs, ReviewNodesOf(inp), id);
      var i :| 0 <= i < |rs| && HasID(ReviewNodesOf(inp)(i, rs[i]), id);
      HasIDOne(ReviewNodes(inp, i, rs[i])[0], id);
      OtherRef(inp, SnapshotRef(rs[i].lastReviewedAt, i), id);
    } else if HasID(FlatMap(inp.data.events, EventNodesOf(inp)), id) {
      var evs := inp.data.events;
      HasIDFlatMap(evs, EventNodesOf(inp), id);
      var i :| 0 <= i < |evs| && HasID(EventNodesOf(inp)(i, evs[i]), id);
      HasIDOne(EventNodes(inp, i, evs[i])[0], id);
      OtherRef(inp, EventRef(evs[i], i), id);
    } else {
      var rs := inp.data.reports;
      HasIDFlatMap(rs, ReportNodesOf(inp), id);
      var i :| 0 <= i < |rs| && HasID(ReportNodesOf(inp)(i, rs[i]), id);
      HasIDOne(ReportNodes(inp, rs[i])[0], id);
      OtherRef(inp, TypedRef(REPORT, rs[i].id), id);
    }
  }

  lemma HistoryIDIsRef(inp: Input, id: string)
    requires HasID(HistoryNodes(inp), id)
    ensures HasRef(inp, id)
  {
    hide HasID, HasRef, FlatMap, HistoryNodes, TypedNodeID, NarrativeNodeID, ExportNodeID, ComparisonStatus;
    HistoryPieces(inp, id);
    if HasID(ComparisonNodes(inp), id) {
      HasIDOne(ComparisonNodes(inp)[0], id);
      OtherRef(inp, if |inp.data.reviews| < 2 then NotComparableRef else LatestPreviousRef, id);
    } else if PilotNodeID(inp.tenantID) == id {
      OtherRef(inp, TypedRef(PILOT, inp.tenantID), id);
    } else if HasID(FlatMap(EXPORT_KINDS, ExportNodesOf(inp)), id) {
      var ks := EXPORT_KINDS;
      HasIDFlatMap(ks, ExportNodesOf(inp), id);
      var i :| 0 <= i < |ks| && HasID(ExportNodesOf(inp)(i, ks[i]), id);
      HasIDOne(ExportNodes(inp, ks[i])[0], id);
      OtherRef(inp, ExportRef(i), id);
    } else if HasID(FlatMap(inp.narratives, NarrativeNodesOf(inp)), id) {
      var ns := inp.narratives;
      HasIDFlatMap(ns, NarrativeNodesOf(inp), id);
      var i :| 0 <= i < |ns| && HasID(NarrativeNodesOf(inp)(i, ns[i]), id);
      HasIDOne(NarrativeNodes(inp, i, ns[i])[0], id);
      OtherRef(inp, NarrativeRef(ns[i], i), id);
    } else {
      RecordIDIsRef(inp, id);
    }
  }

  lemma NodeIDIsRef(inp: Input, id: string)
    requires HasID(NodeLog(inp), id)
    ensures HasRef(inp, id)
  {
    hide HasID, HasRef, FlatMap, NodeLog, NextActions, HistoryNodes, ItemNodes, TypedNodeID;
    NodePieces(inp, id);
    if TenantNodeID(inp.tenantID) == id {
      OtherRef(inp, TypedRef(TENANT, inp.tenantID), id);
    } else if HasID(FlatMap(inp.items, ItemNodesOf(inp)), id) {
      HasIDFlatMap(inp.items, ItemNodesOf(inp), id);
      var i :| 0 <= i < |inp.items| && HasID(ItemNodesOf(inp)(i, inp.items[i]), id);
      ItemIDIsRef(inp, i, id);
    } else if HasID(FlatMap(inp.data.proofpacks, ProofpackNodesOf(inp)), id) {
      var ps := inp.data.proofpacks;
      HasIDFlatMap(ps, ProofpackNodesOf(inp), id);
      var i :| 0 <= i < |ps| && HasID(ProofpackNodesOf(inp)(i, ps[i]), id);
      HasIDOne(ProofpackNodes(inp, ps[i])[0], id);
      OtherRef(inp, TypedRef(PROOFPACK, ps[i].id), id);
    } else if HasID(HistoryNodes(inp), id) {
      HistoryIDIsRef(inp, id);
    } else {
      var acts := NextActions(inp);
      HasIDFlatMap(acts, ActionNodesOf(inp), id);
      var i :| 0 <= i < |acts| && HasID(ActionNodesOf(inp)(i, acts[i]), id);
      HasIDOne(ActionNodes(inp, acts[i])[0], id);
      OtherRef(inp, TypedRef(ACTION, acts[i].id), id);
    }
  }

  lemma SameTypedID(typ: string, a: string, b: string)
    ensures TypedNodeID(typ, a) == TypedNodeID(typ, b) <==> Slugs.Slug(a) == Slugs.Slug(b)
  {
    hide Slugs.Slug;
    if TypedNodeID(typ, a) == TypedNodeID(typ, b) {
      assert Slugs.Slug(a) == TypedNodeID(typ, a)[|typ| + 1..];
      assert Slugs.Slug(b) == TypedNodeID(typ, b)[|typ| + 1..];
    }
  }

  lemma EvidenceStart(r: NodeRef)
    ensures Start(r) == ('e', 'v') <==> r.TypedRef? && r.typ == EVIDENCE
    ensures Start(r) != ('g', 'r')
  {
  }

  /** The evidence node of `id` exists exactly when a listed item shares its slug. */
  lemma EvidenceNodeIffListed(inp: Input, id: string)
    ensures HasID(NodeLog(inp), EvidenceNodeID(id)) <==> Listed(inp, id)
  {
    hide NodeLog, HasID, Slugs.Slug, TypedNodeID, RefID, Start;
    var e := EvidenceNodeID(id);
    if Listed(inp, id) {
      var i :| 0 <= i < |inp.items| && Slugs.Slug(inp.items[i].id) == Slugs.Slug(id);
      SameTypedID("evidence", inp.items[i].id, id);
      EvidenceNodeIsThere(inp, i);
    }
    if HasID(NodeLog(inp), e) {
      NodeIDIsRef(inp, e);
      var r :| IsNodeRef(inp, r, e);
      var me := TypedRef(EVIDENCE, id);
      assert RefID(inp.formats, me) == e by { EvidenceRefID(inp.formats, id); }
      RefStarts(inp.formats, r);
      RefStarts(inp.formats, me);
      EvidenceStart(r);
      EvidenceStart(me);
      EvidenceRefID(inp.formats, r.text);
      SameTypedID("evidence", r.text, id);
    }
  }

  lemma EvidenceRefID(formats: Formats, id: string)
    ensures RefID(formats, TypedRef(EVIDENCE, id)) == EvidenceNodeID(id) == TypedNodeID("evidence", id)
  {
  }

  /** No node has the identifier that the cap node is given. */
  lemma CapIDIsFree(inp: Input)
    ensures !HasID(NodeLog(inp), CAP_NODE_ID)
  {
    hide NodeLog, HasID, RefID, Start;
    if HasID(NodeLog(inp), CAP_NODE_ID) {
      NodeIDIsRef(inp, CAP_NODE_ID);
      var r :| IsNodeRef(inp, r, CAP_NODE_ID);
      RefStarts(inp.formats, r);
      EvidenceStart(r);
    }
  }

  // ---- Closure --------------------------------------------------------------

  /** A logged event about an entity that no listed item stands for. */
  ghost predicate OrphanEvent(inp: Input, t: Triple) {
    exists i :: 0 <= i < |inp.data.events| && FromEvent(inp, i, inp.data.events[i], t)
                && inp.data.events[i].entityID != "" && !Listed(inp, inp.data.events[i].entityID)
  }

  ghost predicate EndsAreNodes(inp: Input, t: Triple) {
    HasID(NodeLog(inp), t.source) && HasID(NodeLog(inp), t.target)
  }

  lemma ItemEndsAreNodes(inp: Input, i: nat, t: Triple)
    requires i < |inp.items| && FromItem(inp.now, inp.items[i], t)
    ensures EndsAreNodes(inp, t)
  {
    hide HasID, NodeLog, ItemNodes, EvidenceNodeID, OwnerNodeID, TypedNodeID, ActionNodeID, ActionID, ItemActions,
      IsOwnerless, IsStale, IsExpired, RefNodes, CanonicalStatus, RiskStatus;
    var it := inp.items[i];
    EvidenceNodeIsThere(inp, i);
    ItemPieces(inp, it, t.target);
    if IsOwnerOf(it, t) {
      ItemPieces(inp, it, OwnerNodeID(it));
      ItemNodeIsThere(inp, i, OwnerNodeID(it));
    } else if IsReference(it, "SUPPORTS_CONTROL", "control", it.controlRefs, t) {
      RefIsThere(inp, i, "SUPPORTS_CONTROL", "control", it.controlRefs, "active", t);
    } else if IsReference(it, "RELATES_TO_VENDOR", "vendor", it.vendorRefs, t) {
      RefIsThere(inp, i, "RELATES_TO_VENDOR", "vendor", it.vendorRefs, "active", t);
    } else if IsReference(it, "MITIGATES_RISK", "risk", it.riskRefs, t) {
      RefIsThere(inp, i, "MITIGATES_RISK", "risk", it.riskRefs, RiskStatus(CanonicalStatus(it, inp.now)), t);
    } else {
      GapEndsAreNodes(inp, i, t);
    }
  }

  lemma RefIsThere(inp: Input, i: nat, edgeType: string, typ: string, refs: seq<string>, status: string, t: Triple)
    requires i < |inp.items| && IsReference(inp.items[i], edgeType, typ, refs, t)
    requires HasID(RefNodes(inp, inp.items[i], typ, refs, status), t.target) ==>
             HasID(ItemNodes(inp, inp.items[i]), t.target)
    ensures HasID(NodeLog(inp), t.target) && t.source == EvidenceNodeID(inp.items[i].id)
  {
    hide HasID, NodeLog, ItemNodes, EvidenceNodeID, TypedNodeID;
    var it := inp.items[i];
    var k :| 0 <= k < |refs| && t == Triple(edgeType, EvidenceNodeID(it.id), TypedNodeID(typ, refs[k]));
    RefPieces(inp, it, typ, refs, status, t.target);
    ItemNodeIsThere(inp, i, t.target);
  }

  lemma GapEndsAreNodes(inp: Input, i: nat, t: Triple)
    requires i < |inp.items|
    requires var it := inp.items[i];
             || IsGap(it, IsExpired(it), "EXPIRED_BECAUSE", "replace_expired_evidence", t)
             || IsGap(it, IsOwnerless(it), "OWNERLESS_BECAUSE", "assign_owner", t)
             || IsGap(it, IsStale(it, inp.now), "STALE_BECAUSE", "refresh_stale_evidence", t)
    ensures HasID(NodeLog(inp), t.target) && t.source == EvidenceNodeID(inp.items[i].id)
  {
    hide HasID, NodeLog, EvidenceNodeID, ActionNodeID, ActionID, IsOwnerless, IsStale, IsExpired, ItemAction;
    var it := inp.items[i];
    if IsGap(it, IsExpired(it), "EXPIRED_BECAUSE", "replace_expired_evidence", t) {
      GapActionIsThere(inp, i, IsExpired(it), "replace_expired_evidence", "expired", 25, "Replace expired evidence: ");
    } else if IsGap(it, IsOwnerless(it), "OWNERLESS_BECAUSE", "assign_owner", t) {
      GapActionIsThere(inp, i, IsOwnerless(it), "assign_owner", "ownerless", 18, "Assign owner to ");
    } else {
      GapActionIsThere(inp, i, IsStale(it, inp.now), "refresh_stale_evidence", "stale", 12, "Refresh stale evidence: ");
    }
  }

  lemma ManifestEndsAreNodes(inp: Input, i: nat, t: Triple)
    requires i < |inp.data.proofpacks| && FromManifest(inp, inp.data.proofpacks[i], t)
    ensures EndsAreNodes(inp, t)
  {
    hide HasID, NodeLog, EvidenceNodeID, ProofpackNodeID;
    var p := inp.data.proofpacks[i];
    ProofpackNodeIsThere(inp, i);
    var k, j :| 0 <= k < |p.evidenceIDs| && 0 <= j < |inp.items| && inp.items[j].id == p.evidenceIDs[k]
      && t == Triple("INCLUDED_IN_PROOFPACK", EvidenceNodeID(inp.items[j].id), ProofpackNodeID(p.id));
    EvidenceNodeIsThere(inp, j);
  }

  lemma EventEnds(inp: Input, i: nat, t: Triple)
    requires i < |inp.data.events| && FromEvent(inp, i, inp.data.events[i], t)
    ensures HasID(NodeLog(inp), t.target)
    ensures HasID(NodeLog(inp), t.source) <==>
            inp.data.events[i].entityID == "" || Listed(inp, inp.data.events[i].entityID)
  {
    hide HasID, NodeLog, EvidenceNodeID, TenantNodeID, EventNodeID, Listed;
    EventNodeIsThere(inp, i);
    TenantNodeIsThere(inp);
    EvidenceNodeIffListed(inp, inp.data.events[i].entityID);
  }

  /** The ends of a justified edge that does not come from an event are nodes. */
  lemma OtherEndsAreNodes(inp: Input, t: Triple)
    requires Justified(inp, t)
    requires forall i :: 0 <= i < |inp.data.events| ==> !FromEvent(inp, i, inp.data.events[i], t)
    ensures EndsAreNodes(inp, t)
  {
    hide HasID, NodeLog, NextActions, FromItem, FromItemNeed, FromTenantNeed, FromManifest, FromEvent, TenantNodeID,
      SnapshotNodeID, ReportNodeID, ExportNodeID, NarrativeNodeID, ActionNodeID;
    TenantNodeIsThere(inp);
    if i :| 0 <= i < |inp.items| && FromItem(inp.now, inp.items[i], t) {
      ItemEndsAreNodes(inp, i, t);
    } else if i :| 0 <= i < |inp.data.proofpacks| && FromManifest(inp, inp.data.proofpacks[i], t) {
      ManifestEndsAreNodes(inp, i, t);
    } else if i :| 0 <= i < |inp.data.reviews| && FromReview(inp, i, inp.data.reviews[i], t) {
      ReviewNodeIsThere(inp, i);
    } else if i :| 0 <= i < |inp.data.reports| && FromReport(inp, inp.data.reports[i], t) {
      ReportNodeIsThere(inp, i);
    } else if FromComparison(inp, t) {
      ReviewNodeIsThere(inp, 0);
      ReviewNodeIsThere(inp, 1);
    } else if i :| 0 <= i < |EXPORT_KINDS| && FromExport(inp, EXPORT_KINDS[i], t) {
      ExportNodeIsThere(inp, i);
    } else if i :| 0 <= i < |inp.narratives| && FromNarrative(inp, i, inp.narratives[i], t) {
      NarrativeNodeIsThere(inp, i);
    } else {
      ActionsAreNeeds(inp, t);
      var i :| 0 <= i < |NextActions(inp)| && IsTarget(NextActions(inp)[i], t);
      var a := NextActions(inp)[i];
      var k :| 0 <= k < |a.targets| && t == Triple("REQUIRES_ACTION", a.targets[k], ActionNodeID(a.id));
      ActionTargetsAreThere(inp, a, k);
      ActionNodeIsThere(inp, i);
    }
  }

  /** Main result: the target of every justified edge is a node, and its source is one too unless the edge
      comes from an event about an unlisted entity. Nothing is assumed about how the inputs relate. */
  lemma JustifiedEdgesClose(inp: Input, t: Triple)
    requires Justified(inp, t)
    ensures HasID(NodeLog(inp), t.target)
    ensures OrphanEvent(inp, t) ==> !HasID(NodeLog(inp), t.source)
    ensures !OrphanEvent(inp, t) ==> HasID(NodeLog(inp), t.source)
  {
    hide HasID, NodeLog, Justified, FromEvent, Listed;
    if i :| 0 <= i < |inp.data.events| && FromEvent(inp, i, inp.data.events[i], t) {
      EventEnds(inp, i, t);
      if OrphanEvent(inp, t) {
        var j :| 0 <= j < |inp.data.events| && FromEvent(inp, j, inp.data.events[j], t)
          && inp.data.events[j].entityID != "" && !Listed(inp, inp.data.events[j].entityID);
        EventEnds(inp, j, t);
      }
    } else {
      OtherEndsAreNodes(inp, t);
    }
  }
}

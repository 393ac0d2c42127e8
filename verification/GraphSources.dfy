/** Where every edge of the graph comes from, and which nodes its ends are. */
module GraphSources {
  import opened Records
  import opened Evidence
  import opened Sorting
  import opened GraphModel

  // ---- Triples --------------------------------------------------------------

  datatype Triple = Triple(typ: string, source: string, target: string)

  function TripleOf(e: Edge): Triple {
    Triple(e.typ, e.source, e.target)
  }

  ghost predicate Emits(es: seq<Edge>, t: Triple) {
    exists k :: 0 <= k < |es| && TripleOf(es[k]) == t
  }

  lemma EmitsConcat(a: seq<Edge>, b: seq<Edge>, t: Triple)
    ensures Emits(a + b, t) <==> Emits(a, t) || Emits(b, t)
  {
    if Emits(a, t) {
      var k :| 0 <= k < |a| && TripleOf(a[k]) == t;
      assert TripleOf((a + b)[k]) == t;
    }
    if Emits(b, t) {
      var k :| 0 <= k < |b| && TripleOf(b[k]) == t;
      assert TripleOf((a + b)[|a| + k]) == t;
    }
  }

  ghost predicate SomeEmits<T>(s: seq<T>, f: (nat, T) -> seq<Edge>, t: Triple) {
    exists i :: 0 <= i < |s| && Emits(f(i, s[i]), t)
  }

  lemma {:induction false} EmitsFlatMap<T>(s: seq<T>, f: (nat, T) -> seq<Edge>, t: Triple)
    ensures Emits(FlatMap(s, f), t) <==> SomeEmits(s, f, t)
  {
    if s != [] {
      var n := |s| - 1;
      EmitsFlatMap(s[..n], f, t);
      EmitsConcat(FlatMap(s[..n], f), f(n, s[n]), t);
      if SomeEmits(s[..n], f, t) {
        var i :| 0 <= i < n && Emits(f(i, s[..n][i]), t);
        assert Emits(f(i, s[i]), t);
      }
      if SomeEmits(s, f, t) {
        var i :| 0 <= i < |s| && Emits(f(i, s[i]), t);
        if i < n {
          assert Emits(f(i, s[..n][i]), t);
        }
      }
    }
  }

  lemma EmitsNone(t: Triple)
    ensures !Emits([], t)
  {
  }

  lemma EmitsOne(e: Edge, t: Triple)
    ensures Emits([e], t) <==> TripleOf(e) == t
  {
    if TripleOf(e) == t {
      assert TripleOf([e][0]) == t;
    }
  }

  // ---- The records behind an edge -------------------------------------------

  ghost predicate IsOwnerOf(it: Item, t: Triple) {
    !IsOwnerless(it) && t == Triple("OWNS", OwnerNodeID(it), EvidenceNodeID(it.id))
  }

  ghost predicate IsReference(it: Item, edgeType: string, typ: string, refs: seq<string>, t: Triple) {
    exists k :: 0 <= k < |refs| && t == Triple(edgeType, EvidenceNodeID(it.id), TypedNodeID(typ, refs[k]))
  }

  ghost predicate IsGap(it: Item, gap: bool, edgeType: string, actionType: string, t: Triple) {
    gap && t == Triple(edgeType, EvidenceNodeID(it.id), ActionNodeID(ActionID(actionType, it.id)))
  }

  /** The links and gaps recorded on one item. */
  ghost predicate FromItem(now: Instant, it: Item, t: Triple) {
    || IsOwnerOf(it, t)
    || IsReference(it, "SUPPORTS_CONTROL", "control", it.controlRefs, t)
    || IsReference(it, "RELATES_TO_VENDOR", "vendor", it.vendorRefs, t)
    || IsReference(it, "MITIGATES_RISK", "risk", it.riskRefs, t)
    || IsGap(it, IsExpired(it), "EXPIRED_BECAUSE", "replace_expired_evidence", t)
    || IsGap(it, IsOwnerless(it), "OWNERLESS_BECAUSE", "assign_owner", t)
    || IsGap(it, IsStale(it, now), "STALE_BECAUSE", "refresh_stale_evidence", t)
  }

  /** A manifest entry of a persisted proofpack that names a listed item. */
  ghost predicate FromManifest(inp: Input, p: Proofpack, t: Triple) {
    exists k, i :: 0 <= k < |p.evidenceIDs| && 0 <= i < |inp.items| && inp.items[i].id == p.evidenceIDs[k]
      && t == Triple("INCLUDED_IN_PROOFPACK", EvidenceNodeID(inp.items[i].id), ProofpackNodeID(p.id))
  }

  ghost predicate FromReview(inp: Input, i: nat, r: ReviewSnapshot, t: Triple) {
    t == Triple("APPEARS_IN_SNAPSHOT", TenantNodeID(inp.tenantID), SnapshotNodeID(inp.formats, r.lastReviewedAt, i))
  }

  ghost predicate FromEvent(inp: Input, i: nat, ev: OperationalEvent, t: Triple) {
    t == Triple("GENERATED_EVENT", EventSource(inp, ev), EventNodeID(inp.formats, ev, i))
  }

  ghost predicate FromReport(inp: Input, r: ReviewReport, t: Triple) {
    t == Triple("REVIEWED_IN", TenantNodeID(inp.tenantID), ReportNodeID(r.id))
  }

  ghost predicate FromComparison(inp: Input, t: Triple) {
    var rs := inp.data.reviews;
    |rs| >= 2 && t == Triple("COMPARED_WITH", SnapshotNodeID(inp.formats, rs[0].lastReviewedAt, 0),
      SnapshotNodeID(inp.formats, rs[1].lastReviewedAt, 1))
  }

  ghost predicate FromExport(inp: Input, kind: string, t: Triple) {
    t == Triple("READY_FOR_EXPORT", TenantNodeID(inp.tenantID), ExportNodeID(kind))
  }

  ghost predicate FromNarrative(inp: Input, i: nat, n: Narrative, t: Triple) {
    t == Triple("PRODUCED_NARRATIVE", TenantNodeID(inp.tenantID), NarrativeNodeID(n, i))
  }

  /** Something is missing from `source`, and the action of this type about `subject` supplies it. */
  ghost predicate IsNeed(needed: bool, typ: string, subject: string, source: string, t: Triple) {
    needed && t == Triple("REQUIRES_ACTION", source, ActionNodeID(ActionID(typ, subject)))
  }

  /** A gap of a listed item. */
  ghost predicate FromItemNeed(now: Instant, it: Item, t: Triple) {
    || IsNeed(IsExpired(it), "replace_expired_evidence", it.id, EvidenceNodeID(it.id), t)
    || IsNeed(IsOwnerless(it), "assign_owner", it.id, EvidenceNodeID(it.id), t)
    || IsNeed(IsStale(it, now), "refresh_stale_evidence", it.id, EvidenceNodeID(it.id), t)
    || IsNeed(it.controlRefs == [], "add_control_mapping", it.id, EvidenceNodeID(it.id), t)
    || IsNeed(it.vendorRefs == [], "add_vendor_mapping", it.id, EvidenceNodeID(it.id), t)
  }

  /** What the tenant's history lacks, what it is ready for, and the graph's own export. */
  ghost predicate FromTenantNeed(inp: Input, t: Triple) {
    var id, reviews, packs := inp.tenantID, |inp.data.reviews|, |inp.data.proofpacks|;
    || IsNeed(packs == 0, "create_proofpack", id, TenantNodeID(id), t)
    || IsNeed(reviews == 0, "complete_review", id, TenantNodeID(id), t)
    || IsNeed(reviews < 2, "compare_reviews", id, NOT_COMPARABLE_ID, t)
    || IsNeed(reviews >= 4 && packs > 0, "generate_pilot_proof_bundle", id, PilotNodeID(id), t)
    || IsNeed(true, "export_graph", id, TenantNodeID(id), t)
  }

  /** The source rules: an edge needs an owner field, an explicit reference, a gap, a manifest entry, or a
      record of the tenant's history; nothing is inferred. Computed lists such as the actions are no reasons. */
  ghost predicate Justified(inp: Input, t: Triple) {
    || (exists i :: 0 <= i < |inp.items| && FromItem(inp.now, inp.items[i], t))
    || (exists i :: 0 <= i < |inp.data.proofpacks| && FromManifest(inp, inp.data.proofpacks[i], t))
    || (exists i :: 0 <= i < |inp.data.reviews| && FromReview(inp, i, inp.data.reviews[i], t))
    || (exists i :: 0 <= i < |inp.data.events| && FromEvent(inp, i, inp.data.events[i], t))
    || (exists i :: 0 <= i < |inp.data.reports| && FromReport(inp, inp.data.reports[i], t))
    || FromComparison(inp, t)
    || (exists i :: 0 <= i < |EXPORT_KINDS| && FromExport(inp, EXPORT_KINDS[i], t))
    || (exists i :: 0 <= i < |inp.narratives| && FromNarrative(inp, i, inp.narratives[i], t))
    || (exists i :: 0 <= i < |inp.items| && FromItemNeed(inp.now, inp.items[i], t))
    || FromTenantNeed(inp, t)
  }

  // ---- The builder emits exactly the justified edges ------------------------

  lemma RefsEmit(inp: Input, it: Item, edgeType: string, typ: string, refs: seq<string>, status: string, t: Triple)
    ensures Emits(RefEdges(inp, it, edgeType, typ, refs, status), t) <==> IsReference(it, edgeType, typ, refs, t)
  {
    hide TypedNodeID, EvidenceNodeID;
    var es := RefEdges(inp, it, edgeType, typ, refs, status);
    if IsReference(it, edgeType, typ, refs, t) {
      var k :| 0 <= k < |refs| && t == Triple(edgeType, EvidenceNodeID(it.id), TypedNodeID(typ, refs[k]));
      assert TripleOf(es[k]) == t;
    }
  }

  lemma GapEmits(inp: Input, it: Item, gap: bool, edgeType: string, actionType: string, status: string, t: Triple)
    ensures Emits(GapEdges(inp, it, gap, edgeType, actionType, status), t) <==> IsGap(it, gap, edgeType, actionType, t)
  {
    hide EvidenceNodeID, ActionNodeID, ActionID;
    EmitsNone(t);
    EmitsOne(MakeEdge(inp, edgeType, EvidenceNodeID(it.id), ActionNodeID(ActionID(actionType, it.id)), status,
      inp.now), t);
  }

  lemma OwnerEmits(inp: Input, it: Item, t: Triple)
    ensures Emits(OwnerEdges(inp, it), t) <==> IsOwnerOf(it, t)
  {
    hide OwnerNodeID, EvidenceNodeID, IsOwnerless;
    EmitsNone(t);
    EmitsOne(MakeEdge(inp, "OWNS", OwnerNodeID(it), EvidenceNodeID(it.id), "active", it.updatedAt), t);
  }

  lemma EmitsSeven(a: seq<Edge>, b: seq<Edge>, c: seq<Edge>, d: seq<Edge>, e: seq<Edge>, f: seq<Edge>, g: seq<Edge>,
          t: Triple)
    ensures Emits(a + b + c + d + e + f + g, t) <==>
            Emits(a, t) || Emits(b, t) || Emits(c, t) || Emits(d, t) || Emits(e, t) || Emits(f, t) || Emits(g, t)
  {
    hide Emits;
    EmitsConcat(a, b, t);
    EmitsConcat(a + b, c, t);
    EmitsConcat(a + b + c, d, t);
    EmitsConcat(a + b + c + d, e, t);
    EmitsConcat(a + b + c + d + e, f, t);
    EmitsConcat(a + b + c + d + e + f, g, t);
  }

  lemma ItemEmits(inp: Input, it: Item, t: Triple)
    ensures Emits(ItemEdges(inp, it), t) <==> FromItem(inp.now, it, t)
  {
    hide Emits, RefEdges, GapEdges, OwnerEdges, IsOwnerOf, IsReference, IsGap, CanonicalStatus, RiskStatus, EdgeStatus,
      IsOwnerless, IsStale, IsExpired;
    var status := EdgeStatus(CanonicalStatus(it, inp.now));
    OwnerEmits(inp, it, t);
    RefsEmit(inp, it, "SUPPORTS_CONTROL", "control", it.controlRefs, "active", t);
    RefsEmit(inp, it, "RELATES_TO_VENDOR", "vendor", it.vendorRefs, "active", t);
    RefsEmit(inp, it, "MITIGATES_RISK", "risk", it.riskRefs, status, t);
    GapEmits(inp, it, IsExpired(it), "EXPIRED_BECAUSE", "replace_expired_evidence", "expired", t);
    GapEmits(inp, it, IsOwnerless(it), "OWNERLESS_BECAUSE", "assign_owner", "missing", t);
    GapEmits(inp, it, IsStale(it, inp.now), "STALE_BECAUSE", "refresh_stale_evidence", "stale", t);
    EmitsSeven(OwnerEdges(inp, it), RefEdges(inp, it, "SUPPORTS_CONTROL", "control", it.controlRefs, "active"),
      RefEdges(inp, it, "RELATES_TO_VENDOR", "vendor", it.vendorRefs, "active"),
      RefEdges(inp, it, "MITIGATES_RISK", "risk", it.riskRefs, status),
      GapEdges(inp, it, IsExpired(it), "EXPIRED_BECAUSE", "replace_expired_evidence", "expired"),
      GapEdges(inp, it, IsOwnerless(it), "OWNERLESS_BECAUSE", "assign_owner", "missing"),
      GapEdges(inp, it, IsStale(it, inp.now), "STALE_BECAUSE", "refresh_stale_evidence", "stale"), t);
  }

  lemma ProofpackEmits(inp: Input, p: Proofpack, t: Triple)
    ensures Emits(ProofpackEdges(inp, p), t) <==> FromManifest(inp, p, t)
  {
    hide EvidenceNodeID, ProofpackNodeID, FlatMap, Emits;
    var f := ManifestEdgeOf(inp, p);
    EmitsNone(t);
    EmitsFlatMap(p.evidenceIDs, f, t);
    forall k | 0 <= k < |p.evidenceIDs|
      ensures Emits(f(k, p.evidenceIDs[k]), t) <==>
              p.evidenceIDs[k] in KnownIDs(inp.items)
                && t == Triple("INCLUDED_IN_PROOFPACK", EvidenceNodeID(p.evidenceIDs[k]), ProofpackNodeID(p.id))
    {
      EmitsOne(MakeEdge(inp, "INCLUDED_IN_PROOFPACK", EvidenceNodeID(p.evidenceIDs[k]), ProofpackNodeID(p.id),
        "active", p.createdAt), t);
    }
    if FromManifest(inp, p, t) {
      var k, i :| 0 <= k < |p.evidenceIDs| && 0 <= i < |inp.items| && inp.items[i].id == p.evidenceIDs[k]
        && t == Triple("INCLUDED_IN_PROOFPACK", EvidenceNodeID(inp.items[i].id), ProofpackNodeID(p.id));
      assert p.evidenceIDs[k] in KnownIDs(inp.items);
      assert Emits(f(k, p.evidenceIDs[k]), t);
    }
  }

  // Actions are a computed list. Their edges are traced to the records behind them.

  ghost predicate IsTarget(a: Action, t: Triple) {
    exists k :: 0 <= k < |a.targets| && t == Triple("REQUIRES_ACTION", a.targets[k], ActionNodeID(a.id))
  }

  ghost predicate SomeTarget(actions: seq<Action>, t: Triple) {
    exists i :: 0 <= i < |actions| && IsTarget(actions[i], t)
  }

  lemma SomeTargetConcat(a: seq<Action>, b: seq<Action>, t: Triple)
    ensures SomeTarget(a + b, t) <==> SomeTarget(a, t) || SomeTarget(b, t)
  {
    hide IsTarget;
    if SomeTarget(a, t) {
      var i :| 0 <= i < |a| && IsTarget(a[i], t);
      assert IsTarget((a + b)[i], t);
    }
    if SomeTarget(b, t) {
      var i :| 0 <= i < |b| && IsTarget(b[i], t);
      assert IsTarget((a + b)[|a| + i], t);
    }
  }

  lemma SomeTargetFive(a: seq<Action>, b: seq<Action>, c: seq<Action>, d: seq<Action>, e: seq<Action>, t: Triple)
    ensures SomeTarget(a + b + c + d + e, t) <==>
            SomeTarget(a, t) || SomeTarget(b, t) || SomeTarget(c, t) || SomeTarget(d, t) || SomeTarget(e, t)
  {
    hide SomeTarget;
    SomeTargetConcat(a, b, t);
    SomeTargetConcat(a + b, c, t);
    SomeTargetConcat(a + b + c, d, t);
    SomeTargetConcat(a + b + c + d, e, t);
  }

  lemma OneTarget(actions: seq<Action>, needed: bool, typ: string, subject: string, source: string, t: Triple)
    requires |actions| == One(needed)
    requires needed ==> actions[0].id == ActionID(typ, subject) && actions[0].targets == [source]
    ensures SomeTarget(actions, t) <==> IsNeed(needed, typ, subject, source, t)
  {
    hide ActionNodeID, ActionID;
    if IsNeed(needed, typ, subject, source, t) {
      assert actions[0].targets[0] == source;
      assert IsTarget(actions[0], t);
    }
  }

  lemma ItemAsks(now: Instant, it: Item, t: Triple)
    ensures SomeTarget(ItemActions(now, it), t) <==> FromItemNeed(now, it, t)
  {
    hide SomeTarget, IsNeed, ActionID, EvidenceNodeID, IsExpired, IsOwnerless, IsStale;
    var id, source := it.id, EvidenceNodeID(it.id);
    var a := ItemAction(IsExpired(it), "replace_expired_evidence", "expired", 25, "Replace expired evidence: ", it);
    var b := ItemAction(IsOwnerless(it), "assign_owner", "ownerless", 18, "Assign owner to ", it);
    var c := ItemAction(IsStale(it, now), "refresh_stale_evidence", "stale", 12, "Refresh stale evidence: ", it);
    var d := ItemAction(it.controlRefs == [], "add_control_mapping", "missing", 10, "Add control mapping for ", it);
    var e := ItemAction(it.vendorRefs == [], "add_vendor_mapping", "missing", 7, "Add vendor mapping for ", it);
    OneTarget(a, IsExpired(it), "replace_expired_evidence", id, source, t);
    OneTarget(b, IsOwnerless(it), "assign_owner", id, source, t);
    OneTarget(c, IsStale(it, now), "refresh_stale_evidence", id, source, t);
    OneTarget(d, it.controlRefs == [], "add_control_mapping", id, source, t);
    OneTarget(e, it.vendorRefs == [], "add_vendor_mapping", id, source, t);
    SomeTargetFive(a, b, c, d, e, t);
  }

  lemma TenantAsks(inp: Input, t: Triple)
    ensures SomeTarget(TenantActions(inp.tenantID, inp.data), t) <==> FromTenantNeed(inp, t)
  {
    hide SomeTarget, IsNeed, ActionID, TenantNodeID, PilotNodeID;
    var id, d, tenant := inp.tenantID, inp.data, TenantNodeID(inp.tenantID);
    var p := TenantAction(|d.proofpacks| == 0, id, "create_proofpack", "missing", 16, "Create first proofpack", tenant);
    var q := TenantAction(|d.reviews| == 0, id, "complete_review", "missing", 20, "Complete first operational review",
      tenant);
    var r := TenantAction(|d.reviews| < 2, id, "compare_reviews", "not_comparable", 11,
                          "Generate enough reviews to compare", NOT_COMPARABLE_ID);
    var u := TenantAction(|d.reviews| >= 4 && |d.proofpacks| > 0, id, "generate_pilot_proof_bundle", "active", 9,
                          "Export pilot proof bundle", PilotNodeID(id));
    var v := TenantAction(true, id, "export_graph", "active", 6, "Export evidence graph", tenant);
    OneTarget(p, |d.proofpacks| == 0, "create_proofpack", id, tenant, t);
    OneTarget(q, |d.reviews| == 0, "complete_review", id, tenant, t);
    OneTarget(r, |d.reviews| < 2, "compare_reviews", id, NOT_COMPARABLE_ID, t);
    OneTarget(u, |d.reviews| >= 4 && |d.proofpacks| > 0, "generate_pilot_proof_bundle", id, PilotNodeID(id), t);
    OneTarget(v, true, "export_graph", id, tenant, t);
    SomeTargetFive(p, q, r, u, v, t);
  }

  lemma {:induction false} AllItemsAsk(now: Instant, items: seq<Item>, t: Triple)
    ensures SomeTarget(FlatMap(items, ItemActionsOf(now)), t) <==>
            exists i :: 0 <= i < |items| && FromItemNeed(now, items[i], t)
  {
    hide SomeTarget, FromItemNeed, ItemActions;
    if items == [] {
      NoTarget(t);
    } else {
      var n := |items| - 1;
      AllItemsAsk(now, items[..n], t);
      SomeTargetConcat(FlatMap(items[..n], ItemActionsOf(now)), ItemActions(now, items[n]), t);
      ItemAsks(now, items[n], t);
    }
  }

  lemma NoTarget(t: Triple)
    ensures !SomeTarget([], t)
  {
  }

  /** The listed actions ask exactly for what the items and the history lack. */
  lemma ActionsAreNeeds(inp: Input, t: Triple)
    ensures SomeTarget(NextActions(inp), t) <==>
            (exists i :: 0 <= i < |inp.items| && FromItemNeed(inp.now, inp.items[i], t)) || FromTenantNeed(inp, t)
  {
    hide SomeTarget, FromItemNeed, FromTenantNeed, FlatMap, TenantActions, StableSort, ActionLess;
    SortIsPermutation(RawActions(inp), ActionLess);
    SameTargets(NextActions(inp), RawActions(inp), t);
    SomeTargetConcat(FlatMap(inp.items, ItemActionsOf(inp.now)), TenantActions(inp.tenantID, inp.data), t);
    AllItemsAsk(inp.now, inp.items, t);
    TenantAsks(inp, t);
  }

  lemma SameTargets(a: seq<Action>, b: seq<Action>, t: Triple)
    requires multiset(a) == multiset(b)
    ensures SomeTarget(a, t) <==> SomeTarget(b, t)
  {
    hide IsTarget;
    SameMembers(a, b);
    if i :| 0 <= i < |a| && IsTarget(a[i], t) {
      assert a[i] in b;
    }
    if i :| 0 <= i < |b| && IsTarget(b[i], t) {
      assert b[i] in a;
    }
  }

  lemma ActionEmits(inp: Input, a: Action, t: Triple)
    ensures Emits(ActionEdges(inp, a), t) <==> IsTarget(a, t)
  {
    hide ActionNodeID, EdgeStatus, FlatMap, Emits;
    var f := TargetEdgesOf(inp, a);
    EmitsFlatMap(a.targets, f, t);
    forall k | 0 <= k < |a.targets|
      ensures Emits(f(k, a.targets[k]), t) <==> t == Triple("REQUIRES_ACTION", a.targets[k], ActionNodeID(a.id))
    {
      EmitsOne(MakeEdge(inp, "REQUIRES_ACTION", a.targets[k], ActionNodeID(a.id), EdgeStatus(a.severity), inp.now), t);
    }
    if IsTarget(a, t) {
      var k :| 0 <= k < |a.targets| && t == Triple("REQUIRES_ACTION", a.targets[k], ActionNodeID(a.id));
      assert Emits(f(k, a.targets[k]), t);
    }
  }

  lemma ItemsEmit(inp: Input, t: Triple)
    ensures Emits(FlatMap(inp.items, ItemEdgesOf(inp)), t) <==>
            exists i :: 0 <= i < |inp.items| && FromItem(inp.now, inp.items[i], t)
  {
    hide FlatMap, ItemEdges, FromItem, Emits;
    EmitsFlatMap(inp.items, ItemEdgesOf(inp), t);
    forall i | 0 <= i < |inp.items| ensures Emits(ItemEdgesOf(inp)(i, inp.items[i]), t) <==>
      FromItem(inp.now, inp.items[i], t) {
      ItemEmits(inp, inp.items[i], t);
    }
  }

  lemma ProofpacksEmit(inp: Input, t: Triple)
    ensures Emits(FlatMap(inp.data.proofpacks, ProofpackEdgesOf(inp)), t) <==>
            exists i :: 0 <= i < |inp.data.proofpacks| && FromManifest(inp, inp.data.proofpacks[i], t)
  {
    hide FlatMap, ProofpackEdges, FromManifest, Emits;
    var ps := inp.data.proofpacks;
    EmitsFlatMap(ps, ProofpackEdgesOf(inp), t);
    forall i | 0 <= i < |ps| ensures Emits(ProofpackEdgesOf(inp)(i, ps[i]), t) <==> FromManifest(inp, ps[i], t) {
      ProofpackEmits(inp, ps[i], t);
    }
  }

  lemma ReviewsEmit(inp: Input, t: Triple)
    ensures Emits(FlatMap(inp.data.reviews, ReviewEdgesOf(inp)), t) <==>
            exists i :: 0 <= i < |inp.data.reviews| && FromReview(inp, i, inp.data.reviews[i], t)
  {
    hide FlatMap, TenantNodeID, SnapshotNodeID, Emits;
    var rs := inp.data.reviews;
    EmitsFlatMap(rs, ReviewEdgesOf(inp), t);
    forall i | 0 <= i < |rs| ensures Emits(ReviewEdgesOf(inp)(i, rs[i]), t) <==> FromReview(inp, i, rs[i], t) {
      EmitsOne(ReviewEdges(inp, i, rs[i])[0], t);
    }
  }

  lemma EventsEmit(inp: Input, t: Triple)
    ensures Emits(FlatMap(inp.data.events, EventEdgesOf(inp)), t) <==>
            exists i :: 0 <= i < |inp.data.events| && FromEvent(inp, i, inp.data.events[i], t)
  {
    hide FlatMap, EventSource, EventNodeID, Emits;
    var evs := inp.data.events;
    EmitsFlatMap(evs, EventEdgesOf(inp), t);
    forall i | 0 <= i < |evs| ensures Emits(EventEdgesOf(inp)(i, evs[i]), t) <==> FromEvent(inp, i, evs[i], t) {
      EmitsOne(EventEdges(inp, i, evs[i])[0], t);
    }
  }

  lemma ReportsEmit(inp: Input, t: Triple)
    ensures Emits(FlatMap(inp.data.reports, ReportEdgesOf(inp)), t) <==>
            exists i :: 0 <= i < |inp.data.reports| && FromReport(inp, inp.data.reports[i], t)
  {
    hide FlatMap, TenantNodeID, ReportNodeID, Emits;
    var rs := inp.data.reports;
    EmitsFlatMap(rs, ReportEdgesOf(inp), t);
    forall i | 0 <= i < |rs| ensures Emits(ReportEdgesOf(inp)(i, rs[i]), t) <==> FromReport(inp, rs[i], t) {
      EmitsOne(ReportEdges(inp, rs[i])[0], t);
    }
  }

  lemma ComparisonEmits(inp: Input, t: Triple)
    ensures Emits(ComparisonEdges(inp), t) <==> FromComparison(inp, t)
  {
    hide SnapshotNodeID, ComparisonStatus;
    if |inp.data.reviews| >= 2 {
      EmitsOne(ComparisonEdges(inp)[0], t);
    }
  }

  lemma ExportsEmit(inp: Input, t: Triple)
    ensures Emits(FlatMap(EXPORT_KINDS, ExportEdgesOf(inp)), t) <==>
            exists i :: 0 <= i < |EXPORT_KINDS| && FromExport(inp, EXPORT_KINDS[i], t)
  {
    hide FlatMap, TenantNodeID, ExportNodeID, Emits;
    var ks := EXPORT_KINDS;
    EmitsFlatMap(ks, ExportEdgesOf(inp), t);
    forall i | 0 <= i < |ks| ensures Emits(ExportEdgesOf(inp)(i, ks[i]), t) <==> FromExport(inp, ks[i], t) {
      EmitsOne(ExportEdges(inp, ks[i])[0], t);
    }
  }

  lemma NarrativesEmit(inp: Input, t: Triple)
    ensures Emits(FlatMap(inp.narratives, NarrativeEdgesOf(inp)), t) <==>
            exists i :: 0 <= i < |inp.narratives| && FromNarrative(inp, i, inp.narratives[i], t)
  {
    hide FlatMap, TenantNodeID, NarrativeNodeID, Emits;
    var ns := inp.narratives;
    EmitsFlatMap(ns, NarrativeEdgesOf(inp), t);
    forall i | 0 <= i < |ns| ensures Emits(NarrativeEdgesOf(inp)(i, ns[i]), t) <==> FromNarrative(inp, i, ns[i], t) {
      EmitsOne(NarrativeEdges(inp, i, ns[i])[0], t);
    }
  }

  lemma ActionsEmit(inp: Input, t: Triple)
    ensures Emits(FlatMap(NextActions(inp), ActionEdgesOf(inp)), t) <==>
            (exists i :: 0 <= i < |inp.items| && FromItemNeed(inp.now, inp.items[i], t)) || FromTenantNeed(inp, t)
  {
    hide FlatMap, NextActions, ActionEdges, IsTarget, Emits, FromItemNeed, FromTenantNeed;
    ActionsAreNeeds(inp, t);
    var acts := NextActions(inp);
    EmitsFlatMap(acts, ActionEdgesOf(inp), t);
    forall i | 0 <= i < |acts| ensures Emits(ActionEdgesOf(inp)(i, acts[i]), t) <==> IsTarget(acts[i], t) {
      ActionEmits(inp, acts[i], t);
    }
  }

  lemma LogPieces(inp: Input, t: Triple)
    ensures Emits(EdgeLog(inp), t) <==>
            || Emits(FlatMap(inp.items, ItemEdgesOf(inp)), t)
            || Emits(FlatMap(inp.data.proofpacks, ProofpackEdgesOf(inp)), t)
            || Emits(FlatMap(inp.data.reviews, ReviewEdgesOf(inp)), t)
            || Emits(FlatMap(inp.data.events, EventEdgesOf(inp)), t)
            || Emits(FlatMap(inp.data.reports, ReportEdgesOf(inp)), t)
            || Emits(ComparisonEdges(inp), t)
            || Emits(FlatMap(EXPORT_KINDS, ExportEdgesOf(inp)), t)
            || Emits(FlatMap(inp.narratives, NarrativeEdgesOf(inp)), t)
            || Emits(FlatMap(NextActions(inp), ActionEdgesOf(inp)), t)
  {
    hide FlatMap, NextActions, ComparisonEdges, Emits;
    var a, b := FlatMap(inp.items, ItemEdgesOf(inp)), FlatMap(inp.data.proofpacks, ProofpackEdgesOf(inp));
    EmitsConcat(a, b, t);
    EmitsConcat(a + b, HistoryEdges(inp), t);
    EmitsConcat(a + b + HistoryEdges(inp), FlatMap(NextActions(inp), ActionEdgesOf(inp)), t);
    EmitsNone(t);
    var h := FlatMap(inp.narratives, NarrativeEdgesOf(inp));
    EmitsSeven(FlatMap(inp.data.reviews, ReviewEdgesOf(inp)), FlatMap(inp.data.events, EventEdgesOf(inp)),
      FlatMap(inp.data.reports, ReportEdgesOf(inp)), ComparisonEdges(inp), FlatMap(EXPORT_KINDS, ExportEdgesOf(inp)),
        h, [], t);
    assert HistoryEdges(inp) + [] == HistoryEdges(inp);
  }

  /** The builder emits an edge exactly when the source rules justify it. */
  lemma EmittedIffJustified(inp: Input, t: Triple)
    ensures Emits(EdgeLog(inp), t) <==> Justified(inp, t)
  {
    hide FlatMap, NextActions, ComparisonEdges, EdgeLog, Emits, FromItem, FromManifest, FromReview, FromEvent,
      FromReport, FromComparison, FromExport, FromNarrative, FromItemNeed, FromTenantNeed;
    LogPieces(inp, t);
    ItemsEmit(inp, t);
    ProofpacksEmit(inp, t);
    ReviewsEmit(inp, t);
    EventsEmit(inp, t);
    ReportsEmit(inp, t);
    ComparisonEmits(inp, t);
    ExportsEmit(inp, t);
    NarrativesEmit(inp, t);
    ActionsEmit(inp, t);
  }
}

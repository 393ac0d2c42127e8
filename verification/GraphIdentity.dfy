/** Two justified edges share an identifier only if type, source and target all coincide. */
module GraphIdentity {
  import Slugs
  import Text
  import Records
  import opened Evidence
  import opened GraphModel
  import opened GraphRefs
  import opened GraphSources

  // ---- Justified edges ------------------------------------------------------

  ghost predicate IsRefID(formats: Formats, id: string) {
    exists r :: ValidRef(r) && StampIsText(formats, r) && RefID(formats, r) == id
  }

  /** The type of a justified edge is known, and its ends are builder identifiers. */
  ghost predicate WellShaped(formats: Formats, t: Triple) {
    && (exists e :: t.typ == EdgeName(e))
    && IsRefID(formats, t.source)
    && IsRefID(formats, t.target)
  }

  lemma Shape(formats: Formats, t: Triple, e: EdgeType, source: NodeRef, target: NodeRef)
    requires ValidRef(source) && ValidRef(target) && StampIsText(formats, source) && StampIsText(formats, target)
    requires t == Triple(EdgeName(e), RefID(formats, source), RefID(formats, target))
    ensures WellShaped(formats, t)
  {
  }

  lemma ItemShape(inp: Input, it: Records.Item, t: Triple)
    requires FromItem(inp.now, it, t)
    ensures WellShaped(inp.formats, t)
  {
    hide TypedNodeID, WellShaped, IsOwnerless, IsExpired, IsStale, ActionID, Text.TrimSpace;
    var f, item := inp.formats, TypedRef(EVIDENCE, it.id);
    if IsOwnerOf(it, t) {
      Shape(f, t, OWNS, TypedRef(OWNER, if Text.TrimSpace(it.ownerEmail) == "" then Text.TrimSpace(it.ownerName)
        else Text.TrimSpace(it.ownerEmail)), item);
    } else if IsReference(it, "SUPPORTS_CONTROL", "control", it.controlRefs, t) {
      ReferenceShape(f, it, SUPPORTS_CONTROL, CONTROL, it.controlRefs, t);
    } else if IsReference(it, "RELATES_TO_VENDOR", "vendor", it.vendorRefs, t) {
      ReferenceShape(f, it, RELATES_TO_VENDOR, VENDOR, it.vendorRefs, t);
    } else if IsReference(it, "MITIGATES_RISK", "risk", it.riskRefs, t) {
      ReferenceShape(f, it, MITIGATES_RISK, RISK, it.riskRefs, t);
    } else if IsGap(it, IsExpired(it), "EXPIRED_BECAUSE", "replace_expired_evidence", t) {
      Shape(f, t, EXPIRED_BECAUSE, item, TypedRef(ACTION, ActionID("replace_expired_evidence", it.id)));
    } else if IsGap(it, IsOwnerless(it), "OWNERLESS_BECAUSE", "assign_owner", t) {
      Shape(f, t, OWNERLESS_BECAUSE, item, TypedRef(ACTION, ActionID("assign_owner", it.id)));
    } else {
      Shape(f, t, STALE_BECAUSE, item, TypedRef(ACTION, ActionID("refresh_stale_evidence", it.id)));
    }
  }

  lemma ReferenceShape(formats: Formats, it: Records.Item, e: EdgeType, typ: NodeType, refs: seq<string>, t: Triple)
    requires IsReference(it, EdgeName(e), TypeName(typ), refs, t)
    ensures WellShaped(formats, t)
  {
    hide TypedNodeID, WellShaped, EdgeName;
    var k :| 0 <= k < |refs| && t == Triple(EdgeName(e), EvidenceNodeID(it.id), TypedNodeID(TypeName(typ), refs[k]));
    Shape(formats, t, e, TypedRef(EVIDENCE, it.id), TypedRef(typ, refs[k]));
  }

  lemma NeedShape(formats: Formats, needed: bool, typ: string, subject: string, source: NodeRef, t: Triple)
    requires source.TypedRef? || source.NotComparableRef?
    requires IsNeed(needed, typ, subject, RefID(formats, source), t)
    ensures WellShaped(formats, t)
  {
    hide TypedNodeID, WellShaped, ActionID;
    Shape(formats, t, REQUIRES_ACTION, source, TypedRef(ACTION, ActionID(typ, subject)));
  }

  lemma ItemNeedShape(inp: Input, it: Records.Item, t: Triple)
    requires FromItemNeed(inp.now, it, t)
    ensures WellShaped(inp.formats, t)
  {
    hide TypedNodeID, WellShaped, IsOwnerless, IsExpired, IsStale, IsNeed;
    var f, id, item := inp.formats, it.id, TypedRef(EVIDENCE, it.id);
    if IsNeed(IsExpired(it), "replace_expired_evidence", id, EvidenceNodeID(id), t) {
      NeedShape(f, IsExpired(it), "replace_expired_evidence", id, item, t);
    } else if IsNeed(IsOwnerless(it), "assign_owner", id, EvidenceNodeID(id), t) {
      NeedShape(f, IsOwnerless(it), "assign_owner", id, item, t);
    } else if IsNeed(IsStale(it, inp.now), "refresh_stale_evidence", id, EvidenceNodeID(id), t) {
      NeedShape(f, IsStale(it, inp.now), "refresh_stale_evidence", id, item, t);
    } else if IsNeed(it.controlRefs == [], "add_control_mapping", id, EvidenceNodeID(id), t) {
      NeedShape(f, it.controlRefs == [], "add_control_mapping", id, item, t);
    } else {
      NeedShape(f, it.vendorRefs == [], "add_vendor_mapping", id, item, t);
    }
  }

  lemma TenantNeedShape(inp: Input, t: Triple)
    requires FromTenantNeed(inp, t)
    ensures WellShaped(inp.formats, t)
  {
    hide TypedNodeID, WellShaped, IsNeed;
    var f, id, reviews, packs := inp.formats, inp.tenantID, |inp.data.reviews|, |inp.data.proofpacks|;
    var tenant := TypedRef(TENANT, id);
    if IsNeed(packs == 0, "create_proofpack", id, TenantNodeID(id), t) {
      NeedShape(f, packs == 0, "create_proofpack", id, tenant, t);
    } else if IsNeed(reviews == 0, "complete_review", id, TenantNodeID(id), t) {
      NeedShape(f, reviews == 0, "complete_review", id, tenant, t);
    } else if IsNeed(reviews < 2, "compare_reviews", id, NOT_COMPARABLE_ID, t) {
      NeedShape(f, reviews < 2, "compare_reviews", id, NotComparableRef, t);
    } else if IsNeed(reviews >= 4 && packs > 0, "generate_pilot_proof_bundle", id, PilotNodeID(id), t) {
      NeedShape(f, reviews >= 4 && packs > 0, "generate_pilot_proof_bundle", id, TypedRef(PILOT, id), t);
    } else {
      NeedShape(f, true, "export_graph", id, tenant, t);
    }
  }

  lemma EventShape(inp: Input, i: nat, ev: Records.OperationalEvent, t: Triple)
    requires FromEvent(inp, i, ev, t) && StampText(inp.formats.stamp(ev.createdAt))
    ensures WellShaped(inp.formats, t)
  {
    hide TypedNodeID, EventNodeID, WellShaped;
    var source := if ev.entityID != "" then TypedRef(EVIDENCE, ev.entityID) else TypedRef(TENANT, inp.tenantID);
    Shape(inp.formats, t, GENERATED_EVENT, source, EventRef(ev, i));
  }

  lemma FromTenantShape(inp: Input, t: Triple, e: EdgeType, target: NodeRef)
    requires ValidRef(target) && StampIsText(inp.formats, target)
    requires t == Triple(EdgeName(e), TenantNodeID(inp.tenantID), RefID(inp.formats, target))
    ensures WellShaped(inp.formats, t)
  {
    hide TypedNodeID, WellShaped, EdgeName;
    Shape(inp.formats, t, e, TypedRef(TENANT, inp.tenantID), target);
  }

  lemma RecordShape(inp: Input, t: Triple)
    requires StampsAreText(inp)
    requires || (exists i :: 0 <= i < |inp.data.reviews| && FromReview(inp, i, inp.data.reviews[i], t))
             || (exists i :: 0 <= i < |inp.data.reports| && FromReport(inp, inp.data.reports[i], t))
             || (exists i :: 0 <= i < |EXPORT_KINDS| && FromExport(inp, EXPORT_KINDS[i], t))
             || (exists i :: 0 <= i < |inp.narratives| && FromNarrative(inp, i, inp.narratives[i], t))
    ensures WellShaped(inp.formats, t)
  {
    hide TypedNodeID, WellShaped, SnapshotNodeID, NarrativeNodeID, ExportNodeID;
    if i :| 0 <= i < |inp.data.reviews| && FromReview(inp, i, inp.data.reviews[i], t) {
      FromTenantShape(inp, t, APPEARS_IN_SNAPSHOT, SnapshotRef(inp.data.reviews[i].lastReviewedAt, i));
    } else if i :| 0 <= i < |inp.data.reports| && FromReport(inp, inp.data.reports[i], t) {
      FromTenantShape(inp, t, REVIEWED_IN, TypedRef(REPORT, inp.data.reports[i].id));
    } else if i :| 0 <= i < |EXPORT_KINDS| && FromExport(inp, EXPORT_KINDS[i], t) {
      FromTenantShape(inp, t, READY_FOR_EXPORT, ExportRef(i));
    } else {
      var i :| 0 <= i < |inp.narratives| && FromNarrative(inp, i, inp.narratives[i], t);
      FromTenantShape(inp, t, PRODUCED_NARRATIVE, NarrativeRef(inp.narratives[i], i));
    }
  }

  lemma ComparisonShape(inp: Input, t: Triple)
    requires StampsAreText(inp) && FromComparison(inp, t)
    ensures WellShaped(inp.formats, t)
  {
    hide WellShaped, SnapshotNodeID;
    var rs := inp.data.reviews;
    Shape(inp.formats, t, COMPARED_WITH, SnapshotRef(rs[0].lastReviewedAt, 0), SnapshotRef(rs[1].lastReviewedAt, 1));
  }

  lemma HistoryShape(inp: Input, t: Triple)
    requires StampsAreText(inp) && Justified(inp, t)
    requires forall i :: 0 <= i < |inp.items| ==> !FromItem(inp.now, inp.items[i], t)
    requires forall i :: 0 <= i < |inp.items| ==> !FromItemNeed(inp.now, inp.items[i], t)
    requires !FromTenantNeed(inp, t)
    ensures WellShaped(inp.formats, t)
  {
    hide WellShaped, FromItem, FromItemNeed, FromTenantNeed, FromManifest, FromEvent, FromReview, FromReport,
      FromExport, FromNarrative, FromComparison;
    if i :| 0 <= i < |inp.data.proofpacks| && FromManifest(inp, inp.data.proofpacks[i], t) {
      ManifestShape(inp, inp.data.proofpacks[i], t);
    } else if i :| 0 <= i < |inp.data.events| && FromEvent(inp, i, inp.data.events[i], t) {
      EventShape(inp, i, inp.data.events[i], t);
    } else if FromComparison(inp, t) {
      ComparisonShape(inp, t);
    } else {
      RecordShape(inp, t);
    }
  }

  lemma ManifestShape(inp: Input, p: Records.Proofpack, t: Triple)
    requires FromManifest(inp, p, t)
    ensures WellShaped(inp.formats, t)
  {
    hide TypedNodeID, WellShaped;
    var k, i :| 0 <= k < |p.evidenceIDs| && 0 <= i < |inp.items| && inp.items[i].id == p.evidenceIDs[k]
      && t == Triple("INCLUDED_IN_PROOFPACK", EvidenceNodeID(inp.items[i].id), ProofpackNodeID(p.id));
    Shape(inp.formats, t, INCLUDED_IN_PROOFPACK, TypedRef(EVIDENCE, inp.items[i].id), TypedRef(PROOFPACK, p.id));
  }

  lemma JustifiedShape(inp: Input, t: Triple)
    requires StampsAreText(inp) && Justified(inp, t)
    ensures WellShaped(inp.formats, t)
  {
    hide WellShaped, FromItem, FromItemNeed, FromTenantNeed, Justified;
    if i :| 0 <= i < |inp.items| && FromItem(inp.now, inp.items[i], t) {
      ItemShape(inp, inp.items[i], t);
    } else if i :| 0 <= i < |inp.items| && FromItemNeed(inp.now, inp.items[i], t) {
      ItemNeedShape(inp, inp.items[i], t);
    } else if FromTenantNeed(inp, t) {
      TenantNeedShape(inp, t);
    } else {
      HistoryShape(inp, t);
    }
  }

  /** Main result: two justified edges share an identifier only if they are the same edge. */
  lemma EdgeIDsSeparate(inp: Input, t: Triple, t': Triple)
    requires StampsAreText(inp) && Justified(inp, t) && Justified(inp, t')
    requires Slugs.EdgeID(t.typ, t.source, t.target) == Slugs.EdgeID(t'.typ, t'.source, t'.target)
    ensures t == t'
  {
    hide Justified, StampsAreText, EdgeName, RefID, Slugs.Slug, Slugs.EdgeID;
    Slugs.EdgeIDDecodes(t.typ, t.source, t.target, t'.typ, t'.source, t'.target);
    JustifiedShape(inp, t);
    JustifiedShape(inp, t');
    var e :| t.typ == EdgeName(e);
    var e' :| t'.typ == EdgeName(e');
    EdgeTypesSeparate(e, e');
    var a :| ValidRef(a) && StampIsText(inp.formats, a) && RefID(inp.formats, a) == t.source;
    var a' :| ValidRef(a') && StampIsText(inp.formats, a') && RefID(inp.formats, a') == t'.source;
    SlugSeparatesNodeIDs(inp.formats, a, a');
    var b :| ValidRef(b) && StampIsText(inp.formats, b) && RefID(inp.formats, b) == t.target;
    var b' :| ValidRef(b') && StampIsText(inp.formats, b') && RefID(inp.formats, b') == t'.target;
    SlugSeparatesNodeIDs(inp.formats, b, b');
  }
}

/** What the nodes of a finished graph say, in the fields of the records behind them. */
module GraphContents {
  import Slugs
  import opened Text
  import opened Records
  import opened Evidence
  import Sorting
  import Keyed
  import opened GraphModel
  import opened GraphRefs
  import GraphOrder
  import opened GraphClosure
  import opened GraphBuilder
  import opened EvidenceGraph
  import GraphTheorems

  // ---- Words ----------------------------------------------------------------

  /** A missing time is replaced. */
  function Filled(t: Instant, otherwise: Instant): Instant {
    if t == 0 then otherwise else t
  }

  predicate Describes(inp: Input, n: Node, typ: string, caption: string, status: string, created: Instant,
          updated: Instant) {
    && n.typ == typ && n.caption == caption && n.status == status && n.tenantID == inp.tenantID
    && n.createdAt == Filled(created, inp.now) && n.updatedAt == Filled(updated, n.createdAt)
  }

  /** A risk is `active` or `unresolved`. */
  ghost predicate RiskShows(it: Item, now: Instant, status: string) {
    exists shown :: ShowsStatus(it, now, shown) && status == (if shown == "active" then "active" else "unresolved")
  }

  /** The first kind of problem that the review counted. */
  predicate ReviewShows(r: ReviewSnapshot, status: string) {
    && (status == "expired" <==> r.expiredEvidence >= 1)
    && (status == "ownerless" <==> r.expiredEvidence < 1 <= r.missingOwners)
    && (status == "stale" <==> r.expiredEvidence < 1 && r.missingOwners < 1 <= r.staleEvidence)
    && (status == "unresolved" <==>
        r.expiredEvidence < 1 && r.missingOwners < 1 && r.staleEvidence < 1 <= r.unresolvedIssues)
    && status in ["expired", "ownerless", "stale", "unresolved", "active"]
  }

  /** More unresolved issues than before, or a health score more than two points lower. */
  predicate ComparisonShows(latest: ReviewSnapshot, previous: ReviewSnapshot, status: string) {
    var worse := latest.unresolvedIssues > previous.unresolvedIssues || previous.healthScore - latest.healthScore > 2;
    status == if worse then "unresolved" else "active"
  }

  predicate ReadinessShows(d: TenantData, status: string) {
    && (status == "active" <==> |d.reviews| >= 4 && d.proofpacks != [])
    && (status == "not_comparable" <==> |d.reviews| >= 2 && !(|d.reviews| >= 4 && d.proofpacks != []))
    && (status == "degraded" <==> |d.reviews| <= 1)
  }

  /** The identifier of a node as text. */
  function IdText(formats: Formats, r: NodeRef): string
    requires ValidRef(r)
  {
    match r
    case TypedRef(TENANT, text) => "tenant:" + Slugs.Slug(text)
    case TypedRef(EVIDENCE, text) => "evidence:" + Slugs.Slug(text)
    case TypedRef(OWNER, text) => "owner:" + Slugs.Slug(text)
    case TypedRef(CONTROL, text) => "control:" + Slugs.Slug(text)
    case TypedRef(VENDOR, text) => "vendor:" + Slugs.Slug(text)
    case TypedRef(RISK, text) => "risk:" + Slugs.Slug(text)
    case TypedRef(PROOFPACK, text) => "proofpack:" + Slugs.Slug(text)
    case TypedRef(REPORT, text) => "review_report:" + Slugs.Slug(text)
    case TypedRef(PILOT, text) => "pilot_readiness:" + Slugs.Slug(text)
    case TypedRef(ACTION, text) => "action:" + Slugs.Slug(text)
    case SnapshotRef(t, i) => "snapshot:review:" + formats.stamp(t) + ":" + Decimal(i)
    case EventRef(ev, i) =>
      "operational_event:" + Slugs.Slug(ev.typ) + ":" + formats.stamp(ev.createdAt) + ":" + Decimal(i)
    case NarrativeRef(n, i) => "narrative:" + Slugs.Slug(n.scope) + ":" + Decimal(i)
    case ExportRef(k) => "export:evidence-graph:" + ["markdown", "text", "json"][k]
    case NotComparableRef => "review_comparison:not_comparable"
    case LatestPreviousRef => "review_comparison:latest_previous"
  }

  lemma TypedText(formats: Formats, typ: NodeType, text: string)
    ensures RefID(formats, TypedRef(typ, text)) == IdText(formats, TypedRef(typ, text))
  {
    hide Slugs.Slug, Decimal;
    assert TypeName(typ) + ":" + Slugs.Slug(text) == TypeName(typ) + (":" + Slugs.Slug(text));
  }

  lemma RefIsText(formats: Formats, r: NodeRef)
    requires ValidRef(r)
    ensures RefID(formats, r) == IdText(formats, r)
  {
    hide Slugs.Slug, Decimal, TypeName;
    if r.TypedRef? {
      TypedText(formats, r.typ, r.text);
    }
  }

  // ---- What one node says ---------------------------------------------------

  predicate EvidenceSays(inp: Input, n: Node, it: Item) {
    && Describes(inp, n, "evidence", it.title, n.status, it.createdAt, it.updatedAt)
    && ShowsStatus(it, inp.now, n.status)
    && n.meta == Mappings(it.id, it.controlRefs, it.vendorRefs, it.riskRefs)
  }

  /** The owner's address stands for it, or its name; it is shown by its name, or its address. */
  predicate OwnerSays(inp: Input, n: Node, it: Item, text: string) {
    && !(AllSpace(it.ownerEmail) && AllSpace(it.ownerName))
    && text == TrimSpace(if AllSpace(it.ownerEmail) then it.ownerName else it.ownerEmail)
    && Describes(inp, n, "owner", TrimSpace(if AllSpace(it.ownerName) then it.ownerEmail else it.ownerName), "active",
                 it.createdAt, it.updatedAt)
  }

  ghost predicate ReferenceSays(inp: Input, n: Node, it: Item, typ: NodeType, text: string) {
    match typ
    case CONTROL =>
      text in it.controlRefs && Describes(inp, n, "control", text, "active", it.createdAt, it.updatedAt)
    case VENDOR =>
      text in it.vendorRefs && Describes(inp, n, "vendor", text, "active", it.createdAt, it.updatedAt)
    case RISK =>
      && text in it.riskRefs && Describes(inp, n, "risk", text, n.status, it.createdAt, it.updatedAt)
      && RiskShows(it, inp.now, n.status)
    case _ => false
  }

  /** The node says of its item what the item's fields say. */
  ghost predicate ItemSays(inp: Input, n: Node, it: Item, typ: NodeType, text: string) {
    match typ
    case EVIDENCE => it.id == text && EvidenceSays(inp, n, it)
    case OWNER => OwnerSays(inp, n, it, text)
    case _ => ReferenceSays(inp, n, it, typ, text)
  }

  predicate ProofpackSays(inp: Input, n: Node, p: Proofpack) {
    Describes(inp, n, "proofpack", p.id, if p.evidenceIDs == [] then "degraded" else "active", p.createdAt,
              p.createdAt)
  }

  predicate ReviewSays(inp: Input, n: Node, r: ReviewSnapshot) {
    && Describes(inp, n, "snapshot", "Review snapshot " + inp.formats.date(r.lastReviewedAt), n.status, r.generatedAt,
                 r.lastReviewedAt)
    && ReviewShows(r, n.status)
  }

  predicate ActionSays(inp: Input, n: Node, a: Action) {
    Describes(inp, n, "action", a.title, a.severity, inp.now, inp.now)
  }

  ghost predicate TypedSays(inp: Input, n: Node, typ: NodeType, text: string) {
    match typ
    case TENANT => text == inp.tenantID && Describes(inp, n, "tenant", text, "active", inp.now, inp.now)
    case PROOFPACK =>
      exists i :: 0 <= i < |inp.data.proofpacks| && inp.data.proofpacks[i].id == text
        && ProofpackSays(inp, n, inp.data.proofpacks[i])
    case REPORT =>
      exists i :: 0 <= i < |inp.data.reports| && inp.data.reports[i].id == text
        && Describes(inp, n, "review_report", text, "active", inp.data.reports[i].generatedAt,
                     inp.data.reports[i].generatedAt)
    case PILOT =>
      && text == inp.tenantID && Describes(inp, n, "pilot_readiness", "Pilot readiness", n.status, inp.now, inp.now)
      && ReadinessShows(inp.data, n.status)
    case ACTION =>
      exists i :: 0 <= i < |NextActions(inp)| && NextActions(inp)[i].id == text
        && ActionSays(inp, n, NextActions(inp)[i])
    case _ => exists i :: 0 <= i < |inp.items| && ItemSays(inp, n, inp.items[i], typ, text)
  }

  /** The node says what the record that `r` refers to says. */
  ghost predicate Says(inp: Input, n: Node, r: NodeRef)
    requires ValidRef(r)
  {
    match r
    case TypedRef(typ, text) => TypedSays(inp, n, typ, text)
    case SnapshotRef(t, i) =>
      i < |inp.data.reviews| && inp.data.reviews[i].lastReviewedAt == t && ReviewSays(inp, n, inp.data.reviews[i])
    case EventRef(ev, i) =>
      && i < |inp.data.events| && inp.data.events[i] == ev
      && Describes(inp, n, "operational_event", ev.typ, "active", ev.createdAt, ev.createdAt)
    case NarrativeRef(told, i) =>
      && i < |inp.narratives| && inp.narratives[i] == told
      && Describes(inp, n, "narrative", told.scope, "active", told.generatedAt, told.generatedAt)
    case ExportRef(k) =>
      Describes(inp, n, "export", "Evidence graph " + ["markdown", "text", "json"][k] + " export", "active", inp.now,
                inp.now)
    case NotComparableRef =>
      && |inp.data.reviews| <= 1
      && Describes(inp, n, "review_comparison", "Review comparison unavailable", "not_comparable", inp.now, inp.now)
    case LatestPreviousRef =>
      && |inp.data.reviews| >= 2
      && Describes(inp, n, "review_comparison", "Latest vs previous review", n.status,
                   inp.data.reviews[0].generatedAt, inp.data.reviews[0].generatedAt)
      && ComparisonShows(inp.data.reviews[0], inp.data.reviews[1], n.status)
  }

  /** The identifier of the node is that of a record, and it says what that record says. */
  ghost predicate IsTold(inp: Input, n: Node) {
    exists r :: ValidRef(r) && IdText(inp.formats, r) == n.id && Says(inp, n, r)
  }

  lemma ToldBy(inp: Input, n: Node, r: NodeRef)
    requires ValidRef(r) && RefID(inp.formats, r) == n.id && Says(inp, n, r)
    ensures IsTold(inp, n)
  {
    hide RefID, Says, IdText;
    RefIsText(inp.formats, r);
  }

  // ---- What is emitted ------------------------------------------------------

  lemma MadeDescribes(inp: Input, id: string, typ: string, caption: string, status: string, created: Instant,
          updated: Instant, meta: Meta)
    ensures var n := FillNode(MakeNode(inp, id, typ, caption, status, created, updated).(meta := meta), inp.now);
            n.id == id && n.meta == meta && Describes(inp, n, typ, caption, status, created, updated)
  {
  }

  lemma EvidenceTold(inp: Input, i: nat)
    requires i < |inp.items|
    ensures IsTold(inp, FillNode(EvidenceNode(inp, inp.items[i]), inp.now))
  {
    hide TypedNodeID, ShowsStatus, CanonicalStatus, IsTold, Describes, FillNode;
    var it := inp.items[i];
    var n := FillNode(EvidenceNode(inp, it), inp.now);
    CanonicalIsShown(it, inp.now);
    MadeDescribes(inp, EvidenceNodeID(it.id), "evidence", it.title, CanonicalStatus(it, inp.now), it.createdAt,
      it.updatedAt, Mappings(it.id, it.controlRefs, it.vendorRefs, it.riskRefs));
    DescribesStatus(inp, n, "evidence", it.title, CanonicalStatus(it, inp.now), it.createdAt, it.updatedAt);
    assert ItemSays(inp, n, it, EVIDENCE, it.id);
    ToldBy(inp, n, TypedRef(EVIDENCE, it.id));
  }

  lemma DescribesStatus(inp: Input, n: Node, typ: string, caption: string, status: string, created: Instant,
          updated: Instant)
    requires Describes(inp, n, typ, caption, status, created, updated)
    ensures n.status == status && n.typ == typ && n.caption == caption
  {
  }

  lemma OwnerTold(inp: Input, i: nat)
    requires i < |inp.items| && !IsOwnerless(inp.items[i])
    ensures IsTold(inp, FillNode(OwnerNodes(inp, inp.items[i])[0], inp.now))
  {
    hide TypedNodeID, IsTold, Describes, FillNode, TrimSpace, AllSpace;
    var it := inp.items[i];
    TrimmedAway(it.ownerEmail);
    TrimmedAway(it.ownerName);
    var n := FillNode(OwnerNodes(inp, it)[0], inp.now);
    var text := TrimSpace(if AllSpace(it.ownerEmail) then it.ownerName else it.ownerEmail);
    MadeDescribes(inp, OwnerNodeID(it), "owner", OwnerLabel(it), "active", it.createdAt, it.updatedAt, Plain);
    assert ItemSays(inp, n, it, OWNER, text);
    ToldBy(inp, n, TypedRef(OWNER, text));
  }

  lemma ReferenceTold(inp: Input, i: nat, typ: NodeType, refs: seq<string>, status: string, k: nat)
    requires i < |inp.items| && k < |refs|
    requires || (typ == CONTROL && refs == inp.items[i].controlRefs && status == "active")
             || (typ == VENDOR && refs == inp.items[i].vendorRefs && status == "active")
             || (typ == RISK && refs == inp.items[i].riskRefs
                 && status == RiskStatus(CanonicalStatus(inp.items[i], inp.now)))
    ensures IsTold(inp, FillNode(RefNodes(inp, inp.items[i], TypeName(typ), refs, status)[k], inp.now))
  {
    hide TypedNodeID, IsTold, Describes, FillNode, ShowsStatus, CanonicalStatus;
    var it := inp.items[i];
    var n := FillNode(RefNodes(inp, it, TypeName(typ), refs, status)[k], inp.now);
    CanonicalIsShown(it, inp.now);
    MadeDescribes(inp, TypedNodeID(TypeName(typ), refs[k]), TypeName(typ), refs[k], status, it.createdAt, it.updatedAt,
      Plain);
    DescribesStatus(inp, n, TypeName(typ), refs[k], status, it.createdAt, it.updatedAt);
    assert RiskStatus(CanonicalStatus(it, inp.now)) == n.status ==> RiskShows(it, inp.now, n.status);
    assert ItemSays(inp, n, it, typ, refs[k]);
    ToldBy(inp, n, TypedRef(typ, refs[k]));
  }

  lemma ItemTold(inp: Input, i: nat, v: Node)
    requires i < |inp.items| && v in ItemNodes(inp, inp.items[i])
    ensures IsTold(inp, FillNode(v, inp.now))
  {
    hide IsTold, FillNode, EvidenceNode, RefNodes, OwnerNodes, RiskStatus, CanonicalStatus, IsOwnerless;
    var it := inp.items[i];
    var risk := RiskStatus(CanonicalStatus(it, inp.now));
    if v == EvidenceNode(inp, it) {
      EvidenceTold(inp, i);
    } else if v in OwnerNodes(inp, it) {
      OneOwner(inp, it);
      OwnerTold(inp, i);
    } else if v in RefNodes(inp, it, "control", it.controlRefs, "active") {
      ReferencesTold(inp, i, CONTROL, it.controlRefs, "active", v);
    } else if v in RefNodes(inp, it, "vendor", it.vendorRefs, "active") {
      ReferencesTold(inp, i, VENDOR, it.vendorRefs, "active", v);
    } else {
      ReferencesTold(inp, i, RISK, it.riskRefs, risk, v);
    }
  }

  lemma OneOwner(inp: Input, it: Item)
    ensures OwnerNodes(inp, it) != [] ==> !IsOwnerless(it) && |OwnerNodes(inp, it)| == 1
  {
  }

  lemma ReferencesTold(inp: Input, i: nat, typ: NodeType, refs: seq<string>, status: string, v: Node)
    requires i < |inp.items| && v in RefNodes(inp, inp.items[i], TypeName(typ), refs, status)
    requires || (typ == CONTROL && refs == inp.items[i].controlRefs && status == "active")
             || (typ == VENDOR && refs == inp.items[i].vendorRefs && status == "active")
             || (typ == RISK && refs == inp.items[i].riskRefs
                 && status == RiskStatus(CanonicalStatus(inp.items[i], inp.now)))
    ensures IsTold(inp, FillNode(v, inp.now))
  {
    hide IsTold, FillNode, CanonicalStatus, RiskStatus, TypedNodeID;
    var ns := RefNodes(inp, inp.items[i], TypeName(typ), refs, status);
    var k :| 0 <= k < |ns| && ns[k] == v;
    ReferenceTold(inp, i, typ, refs, status, k);
  }

  lemma ProofpackTold(inp: Input, i: nat, v: Node)
    requires i < |inp.data.proofpacks| && v in ProofpackNodes(inp, inp.data.proofpacks[i])
    ensures IsTold(inp, FillNode(v, inp.now))
  {
    hide TypedNodeID, IsTold, Describes, FillNode;
    var p := inp.data.proofpacks[i];
    MadeDescribes(inp, ProofpackNodeID(p.id), "proofpack", p.id, if p.evidenceIDs == [] then "degraded" else "active",
      p.createdAt, p.createdAt, Plain);
    ToldBy(inp, FillNode(v, inp.now), TypedRef(PROOFPACK, p.id));
  }

  lemma ReviewStatusShows(r: ReviewSnapshot)
    ensures ReviewShows(r, ReviewStatus(r))
  {
    assert |"expired"| == 7 && |"ownerless"| == 9 && |"stale"| == 5 && |"unresolved"| == 10 && |"active"| == 6;
  }

  lemma ReviewTold(inp: Input, i: nat, v: Node)
    requires i < |inp.data.reviews| && v in ReviewNodes(inp, i, inp.data.reviews[i])
    ensures IsTold(inp, FillNode(v, inp.now))
  {
    hide SnapshotNodeID, IsTold, Describes, FillNode, ReviewStatus, ReviewShows;
    var r := inp.data.reviews[i];
    var n := FillNode(v, inp.now);
    ReviewStatusShows(r);
    MadeDescribes(inp, SnapshotNodeID(inp.formats, r.lastReviewedAt, i), "snapshot",
      "Review snapshot " + inp.formats.date(r.lastReviewedAt), ReviewStatus(r), r.generatedAt, r.lastReviewedAt, Plain);
    DescribesStatus(inp, n, "snapshot", "Review snapshot " + inp.formats.date(r.lastReviewedAt), ReviewStatus(r),
      r.generatedAt, r.lastReviewedAt);
    ToldBy(inp, n, SnapshotRef(r.lastReviewedAt, i));
  }

  lemma EventTold(inp: Input, i: nat, v: Node)
    requires i < |inp.data.events| && v in EventNodes(inp, i, inp.data.events[i])
    ensures IsTold(inp, FillNode(v, inp.now))
  {
    hide EventNodeID, IsTold, Describes, FillNode;
    var ev := inp.data.events[i];
    MadeDescribes(inp, EventNodeID(inp.formats, ev, i), "operational_event", ev.typ, "active", ev.createdAt,
      ev.createdAt, Plain);
    ToldBy(inp, FillNode(v, inp.now), EventRef(ev, i));
  }

  lemma ReportTold(inp: Input, i: nat, v: Node)
    requires i < |inp.data.reports| && v in ReportNodes(inp, inp.data.reports[i])
    ensures IsTold(inp, FillNode(v, inp.now))
  {
    hide TypedNodeID, IsTold, Describes, FillNode;
    var r := inp.data.reports[i];
    MadeDescribes(inp, ReportNodeID(r.id), "review_report", r.id, "active", r.generatedAt, r.generatedAt, Plain);
    ToldBy(inp, FillNode(v, inp.now), TypedRef(REPORT, r.id));
  }

  lemma ComparisonTold(inp: Input, v: Node)
    requires v in ComparisonNodes(inp)
    ensures IsTold(inp, FillNode(v, inp.now))
  {
    hide IsTold, Describes, FillNode;
    var rs, n := inp.data.reviews, FillNode(v, inp.now);
    if |rs| < 2 {
      MadeDescribes(inp, NOT_COMPARABLE_ID, "review_comparison", "Review comparison unavailable", "not_comparable",
        inp.now, inp.now, Plain);
      ToldBy(inp, n, NotComparableRef);
    } else {
      var status := ComparisonStatus(rs[0], rs[1]);
      MadeDescribes(inp, LATEST_PREVIOUS_ID, "review_comparison", "Latest vs previous review", status,
        rs[0].generatedAt, rs[0].generatedAt, Plain);
      DescribesStatus(inp, n, "review_comparison", "Latest vs previous review", status, rs[0].generatedAt,
        rs[0].generatedAt);
      ToldBy(inp, n, LatestPreviousRef);
    }
  }

  lemma ReadinessIsShown(d: TenantData)
    ensures ReadinessShows(d, Readiness(d))
  {
    assert |"active"| == 6 && |"not_comparable"| == 14 && |"degraded"| == 8;
  }

  lemma PilotTold(inp: Input, v: Node)
    requires v in PilotNodes(inp)
    ensures IsTold(inp, FillNode(v, inp.now))
  {
    hide TypedNodeID, IsTold, Describes, FillNode, Readiness, ReadinessShows;
    var n := FillNode(v, inp.now);
    ReadinessIsShown(inp.data);
    MadeDescribes(inp, PilotNodeID(inp.tenantID), "pilot_readiness", "Pilot readiness", Readiness(inp.data), inp.now,
      inp.now, Plain);
    DescribesStatus(inp, n, "pilot_readiness", "Pilot readiness", Readiness(inp.data), inp.now, inp.now);
    ToldBy(inp, n, TypedRef(PILOT, inp.tenantID));
  }

  lemma ExportTold(inp: Input, k: nat, v: Node)
    requires k < |EXPORT_KINDS| && v in ExportNodes(inp, EXPORT_KINDS[k])
    ensures IsTold(inp, FillNode(v, inp.now))
  {
    hide ExportNodeID, IsTold, Describes, FillNode;
    MadeDescribes(inp, ExportNodeID(EXPORT_KINDS[k]), "export", "Evidence graph " + EXPORT_KINDS[k] + " export",
      "active", inp.now, inp.now, Plain);
    ToldBy(inp, FillNode(v, inp.now), ExportRef(k));
  }

  lemma NarrativeTold(inp: Input, i: nat, v: Node)
    requires i < |inp.narratives| && v in NarrativeNodes(inp, i, inp.narratives[i])
    ensures IsTold(inp, FillNode(v, inp.now))
  {
    hide NarrativeNodeID, IsTold, Describes, FillNode;
    var told := inp.narratives[i];
    MadeDescribes(inp, NarrativeNodeID(told, i), "narrative", told.scope, "active", told.generatedAt,
      told.generatedAt, Plain);
    ToldBy(inp, FillNode(v, inp.now), NarrativeRef(told, i));
  }

  lemma ActionTold(inp: Input, i: nat, v: Node)
    requires i < |NextActions(inp)| && v in ActionNodes(inp, NextActions(inp)[i])
    ensures IsTold(inp, FillNode(v, inp.now))
  {
    hide TypedNodeID, IsTold, Describes, FillNode, NextActions;
    var a := NextActions(inp)[i];
    MadeDescribes(inp, ActionNodeID(a.id), "action", a.title, a.severity, inp.now, inp.now, Plain);
    ToldBy(inp, FillNode(v, inp.now), TypedRef(ACTION, a.id));
  }

  lemma TenantTold(inp: Input)
    ensures IsTold(inp, FillNode(TenantNode(inp), inp.now))
  {
    hide TypedNodeID, IsTold, Describes, FillNode;
    MadeDescribes(inp, TenantNodeID(inp.tenantID), "tenant", inp.tenantID, "active", inp.now, inp.now, Plain);
    ToldBy(inp, FillNode(TenantNode(inp), inp.now), TypedRef(TENANT, inp.tenantID));
  }

  lemma HistoryTold(inp: Input, v: Node)
    requires v in HistoryNodes(inp)
    ensures IsTold(inp, FillNode(v, inp.now))
  {
    hide IsTold, FillNode, FlatMap, ReviewNodes, EventNodes, ReportNodes, ComparisonNodes, PilotNodes, ExportNodes,
      NarrativeNodes;
    FlatMapMembers(inp.data.reviews, ReviewNodesOf(inp));
    FlatMapMembers(inp.data.events, EventNodesOf(inp));
    FlatMapMembers(inp.data.reports, ReportNodesOf(inp));
    FlatMapMembers(EXPORT_KINDS, ExportNodesOf(inp));
    FlatMapMembers(inp.narratives, NarrativeNodesOf(inp));
    if v in FlatMap(inp.data.reviews, ReviewNodesOf(inp)) {
      var i :| 0 <= i < |inp.data.reviews| && v in ReviewNodesOf(inp)(i, inp.data.reviews[i]);
      ReviewTold(inp, i, v);
    } else if v in FlatMap(inp.data.events, EventNodesOf(inp)) {
      var i :| 0 <= i < |inp.data.events| && v in EventNodesOf(inp)(i, inp.data.events[i]);
      EventTold(inp, i, v);
    } else if v in FlatMap(inp.data.reports, ReportNodesOf(inp)) {
      var i :| 0 <= i < |inp.data.reports| && v in ReportNodesOf(inp)(i, inp.data.reports[i]);
      ReportTold(inp, i, v);
    } else if v in ComparisonNodes(inp) {
      ComparisonTold(inp, v);
    } else if v in PilotNodes(inp) {
      PilotTold(inp, v);
    } else if v in FlatMap(EXPORT_KINDS, ExportNodesOf(inp)) {
      var i :| 0 <= i < |EXPORT_KINDS| && v in ExportNodesOf(inp)(i, EXPORT_KINDS[i]);
      ExportTold(inp, i, v);
    } else {
      var i :| 0 <= i < |inp.narratives| && v in NarrativeNodesOf(inp)(i, inp.narratives[i]);
      NarrativeTold(inp, i, v);
    }
  }

  /** Every node that is emitted, once filled in, says what its record says. */
  lemma LogTold(inp: Input, v: Node)
    requires v in NodeLog(inp)
    ensures IsTold(inp, FillNode(v, inp.now))
  {
    hide IsTold, FillNode, FlatMap, ItemNodes, ProofpackNodes, HistoryNodes, ActionNodes, NextActions, TenantNode;
    FlatMapMembers(inp.items, ItemNodesOf(inp));
    FlatMapMembers(inp.data.proofpacks, ProofpackNodesOf(inp));
    FlatMapMembers(NextActions(inp), ActionNodesOf(inp));
    if v == TenantNode(inp) {
      TenantTold(inp);
    } else if v in FlatMap(inp.items, ItemNodesOf(inp)) {
      var i :| 0 <= i < |inp.items| && v in ItemNodesOf(inp)(i, inp.items[i]);
      ItemTold(inp, i, v);
    } else if v in FlatMap(inp.data.proofpacks, ProofpackNodesOf(inp)) {
      var i :| 0 <= i < |inp.data.proofpacks| && v in ProofpackNodesOf(inp)(i, inp.data.proofpacks[i]);
      ProofpackTold(inp, i, v);
    } else if v in HistoryNodes(inp) {
      HistoryTold(inp, v);
    } else {
      var i :| 0 <= i < |NextActions(inp)| && v in ActionNodesOf(inp)(i, NextActions(inp)[i]);
      ActionTold(inp, i, v);
    }
  }

  lemma SortedNodeIsFilled(inp: Input, n: Node)
    requires n in SortedNodes(inp)
    ensures exists v :: v in NodeLog(inp) && n == FillNode(v, inp.now)
  {
    hide NodeLog, Sorting.StableSort, Keyed.Survivors, Keyed.Put, GraphOrder.NodeLess, FillNode;
    var log := FillNodes(NodeLog(inp), inp.now);
    Keyed.PutHolds(log, GraphOrder.NodeKey);
    GraphTheorems.SortedMembers(log, GraphOrder.NodeKey, GraphOrder.NodeLess, n);
    assert n in log;
    var m :| 0 <= m < |log| && log[m] == n;
    assert NodeLog(inp)[m] in NodeLog(inp);
  }

  predicate IsCap(inp: Input, n: Node) {
    && n.id == "graph_cap:omitted_nodes" && n.typ == "action" && n.caption == "Graph output capped"
    && n.tenantID == inp.tenantID && n.status == "degraded" && n.createdAt == n.updatedAt == inp.now
  }

  /** Main result: every node of a finished graph says what the record it stands for says, in that record's own fields;
      but for the one node that reports the node cap, which is there exactly when the cap fired. */
  lemma GraphSays(inp: Input, maxNodes: int, maxEdges: int, n: Node)
    requires maxNodes > 0 && maxEdges > 0 && n in GraphOf(inp, maxNodes, maxEdges).nodes
    ensures IsTold(inp, n) || (IsCap(inp, n) && |SortedNodes(inp)| > maxNodes)
  {
    hide IsTold, GraphOf, SortedNodes, FillNode, NodeLog;
    GraphNodeIsSorted(inp, maxNodes, maxEdges, n);
    if n in SortedNodes(inp) {
      SortedNodeIsFilled(inp, n);
      var v :| v in NodeLog(inp) && n == FillNode(v, inp.now);
      LogTold(inp, v);
    }
  }

  lemma GraphNodeIsSorted(inp: Input, maxNodes: int, maxEdges: int, n: Node)
    requires maxNodes > 0 && maxEdges > 0 && n in GraphOf(inp, maxNodes, maxEdges).nodes
    ensures n in SortedNodes(inp) || (IsCap(inp, n) && |SortedNodes(inp)| > maxNodes)
  {
    hide SortedNodes, SortedEdges, Sorting.StableSort, GraphOrder.NodeLess, GraphOrder.EdgeLess, SummaryOf,
      GraphOrder.CapReasons, NextActions, GraphOrder.FirstEdges, GraphOrder.KeptEdges;
    var ns, cap := SortedNodes(inp), GraphOrder.CapNode(inp.tenantID, inp.now);
    var kept := GraphOrder.KeptNodes(ns, maxNodes, cap);
    Sorting.SortIsPermutation(kept, GraphOrder.NodeLess);
    Sorting.SameMembers(kept, Sorting.StableSort(kept, GraphOrder.NodeLess));
    assert n in kept;
  }

  // ---- Nothing is left out --------------------------------------------------

  /** Something that the input holds is referred to. */
  ghost predicate Recorded(inp: Input, r: NodeRef) {
    match r
    case TypedRef(typ, text) => RecordedAs(inp, typ, text)
    case SnapshotRef(t, i) => i < |inp.data.reviews| && inp.data.reviews[i].lastReviewedAt == t
    case EventRef(ev, i) => i < |inp.data.events| && inp.data.events[i] == ev
    case NarrativeRef(told, i) => i < |inp.narratives| && inp.narratives[i] == told
    case ExportRef(k) => k < 3
    case NotComparableRef => |inp.data.reviews| <= 1
    case LatestPreviousRef => |inp.data.reviews| >= 2
  }

  ghost predicate RecordedAs(inp: Input, typ: NodeType, text: string) {
    match typ
    case TENANT => text == inp.tenantID
    case PILOT => text == inp.tenantID
    case PROOFPACK => exists i :: 0 <= i < |inp.data.proofpacks| && inp.data.proofpacks[i].id == text
    case REPORT => exists i :: 0 <= i < |inp.data.reports| && inp.data.reports[i].id == text
    case ACTION => exists i :: 0 <= i < |NextActions(inp)| && NextActions(inp)[i].id == text
    case _ => exists i :: 0 <= i < |inp.items| && RecordedOn(inp.items[i], typ, text)
  }

  predicate RecordedOn(it: Item, typ: NodeType, text: string) {
    match typ
    case EVIDENCE => it.id == text
    case OWNER =>
      && !(AllSpace(it.ownerEmail) && AllSpace(it.ownerName))
      && text == TrimSpace(if AllSpace(it.ownerEmail) then it.ownerName else it.ownerEmail)
    case CONTROL => text in it.controlRefs
    case VENDOR => text in it.vendorRefs
    case RISK => text in it.riskRefs
    case _ => false
  }

  lemma ItemHasNode(inp: Input, i: nat, typ: NodeType, text: string)
    requires i < |inp.items| && RecordedOn(inp.items[i], typ, text)
    ensures HasID(NodeLog(inp), TypedNodeID(TypeName(typ), text))
  {
    hide NodeLog, HasID, TypedNodeID, TrimSpace, AllSpace, RefNodes, RiskStatus, CanonicalStatus;
    var it, id := inp.items[i], TypedNodeID(TypeName(typ), text);
    TrimmedAway(it.ownerEmail);
    TrimmedAway(it.ownerName);
    ItemPieces(inp, it, id);
    RefPieces(inp, it, "control", it.controlRefs, "active", id);
    RefPieces(inp, it, "vendor", it.vendorRefs, "active", id);
    RefPieces(inp, it, "risk", it.riskRefs, RiskStatus(CanonicalStatus(it, inp.now)), id);
    ItemNodeIsThere(inp, i, id);
  }

  lemma TypedHasNode(inp: Input, typ: NodeType, text: string)
    requires RecordedAs(inp, typ, text)
    ensures HasID(NodeLog(inp), TypedNodeID(TypeName(typ), text))
  {
    hide NodeLog, HasID, TypedNodeID, RecordedOn, NextActions;
    match typ {
      case TENANT => TenantNodeIsThere(inp);
      case PILOT => TenantNodeIsThere(inp);
      case PROOFPACK =>
        var i :| 0 <= i < |inp.data.proofpacks| && inp.data.proofpacks[i].id == text;
        ProofpackNodeIsThere(inp, i);
      case REPORT =>
        var i :| 0 <= i < |inp.data.reports| && inp.data.reports[i].id == text;
        ReportNodeIsThere(inp, i);
      case ACTION =>
        var i :| 0 <= i < |NextActions(inp)| && NextActions(inp)[i].id == text;
        ActionNodeIsThere(inp, i);
      case _ =>
        var i :| 0 <= i < |inp.items| && RecordedOn(inp.items[i], typ, text);
        ItemHasNode(inp, i, typ, text);
    }
  }

  lemma RecordHasNode(inp: Input, r: NodeRef)
    requires ValidRef(r) && Recorded(inp, r)
    ensures HasID(NodeLog(inp), RefID(inp.formats, r))
  {
    hide NodeLog, HasID, TypedNodeID, SnapshotNodeID, EventNodeID, NarrativeNodeID, ExportNodeID, RecordedAs;
    match r {
      case TypedRef(typ, text) => TypedHasNode(inp, typ, text);
      case SnapshotRef(t, i) => ReviewNodeIsThere(inp, i);
      case EventRef(ev, i) => EventNodeIsThere(inp, i);
      case NarrativeRef(told, i) => NarrativeNodeIsThere(inp, i);
      case ExportRef(k) => ExportNodeIsThere(inp, k);
      case NotComparableRef => ComparisonNodeIsThere(inp);
      case LatestPreviousRef => ComparisonNodeIsThere(inp);
    }
  }

  /** Main result: conversely, in a graph that the node cap did not cut, everything that the input holds has its
      node. */
  lemma GraphShows(inp: Input, maxNodes: int, maxEdges: int, r: NodeRef)
    requires maxNodes > 0 && |SortedNodes(inp)| <= maxNodes && ValidRef(r) && Recorded(inp, r)
    ensures exists n :: n in GraphOf(inp, maxNodes, maxEdges).nodes && n.id == IdText(inp.formats, r)
  {
    hide GraphOf, SortedNodes, NodeLog, RefID, IdText, Recorded;
    var id := IdText(inp.formats, r);
    RefIsText(inp.formats, r);
    RecordHasNode(inp, r);
    GraphTheorems.SortedNodeIDs(inp, id);
    GraphTheorems.GraphNodeIDs(inp, maxNodes, maxEdges, id);
    var g := GraphOf(inp, maxNodes, maxEdges);
    var k :| 0 <= k < |g.nodes| && g.nodes[k].id == id;
    assert g.nodes[k] in g.nodes;
  }

  predicate OnlyItemOfSlug(inp: Input, i: nat)
    requires i < |inp.items|
  {
    forall j :: 0 <= j < |inp.items| && Slugs.Slug(inp.items[j].id) == Slugs.Slug(inp.items[i].id) ==> j == i
  }

  /** Main result: in a graph that the node cap did not cut, an item whose slug no other item has is shown by its own
      node: by the status, the times and the references that it has, and not by those of any other item. */
  lemma ItemIsShown(inp: Input, maxNodes: int, maxEdges: int, i: nat)
    requires maxNodes > 0 && maxEdges > 0 && |SortedNodes(inp)| <= maxNodes
    requires i < |inp.items| && OnlyItemOfSlug(inp, i)
    ensures var ns, id := GraphOf(inp, maxNodes, maxEdges).nodes, "evidence:" + Slugs.Slug(inp.items[i].id);
            && (exists n :: n in ns && n.id == id)
            && (forall n :: n in ns && n.id == id ==> EvidenceSays(inp, n, inp.items[i]))
  {
    hide GraphOf, SortedNodes, Slugs.Slug, EvidenceSays, NodeLog, OnlyItemOfSlug;
    var it := inp.items[i];
    TypedText(inp.formats, EVIDENCE, it.id);
    GraphShows(inp, maxNodes, maxEdges, TypedRef(EVIDENCE, it.id));
    forall n | n in GraphOf(inp, maxNodes, maxEdges).nodes && n.id == "evidence:" + Slugs.Slug(it.id)
      ensures EvidenceSays(inp, n, it)
    {
      GraphSays(inp, maxNodes, maxEdges, n);
      ToldItem(inp, n, i);
    }
  }

  /** The node with the identifier of an item says what the item says. */
  lemma ToldItem(inp: Input, n: Node, i: nat)
    requires i < |inp.items| && OnlyItemOfSlug(inp, i)
    requires IsTold(inp, n) && n.id == EvidenceNodeID(inp.items[i].id)
    ensures EvidenceSays(inp, n, inp.items[i])
  {
    hide Slugs.Slug, EvidenceSays, TypedNodeID, RefID, Start, IdText;
    var me := TypedRef(EVIDENCE, inp.items[i].id);
    var r :| ValidRef(r) && IdText(inp.formats, r) == n.id && Says(inp, n, r);
    RefIsText(inp.formats, r);
    EvidenceRefID(inp.formats, inp.items[i].id);
    RefStarts(inp.formats, r);
    RefStarts(inp.formats, me);
    EvidenceStart(r);
    EvidenceStart(me);
    EvidenceRefID(inp.formats, r.text);
    SameTypedID("evidence", r.text, inp.items[i].id);
    var j :| 0 <= j < |inp.items| && ItemSays(inp, n, inp.items[j], EVIDENCE, r.text);
    assert j == i;
  }
}

/** How a finished graph is read: its order, its actions, its summary and its reasons, in plain terms. */
module GraphReading {
  import Slugs
  import opened Text
  import opened Records
  import opened Evidence
  import opened Sorting
  import opened Keyed
  import opened GraphModel
  import opened GraphHealth
  import opened GraphOrder
  import GraphClosure
  import opened EvidenceGraph
  import GraphTheorems

  // ---- Order ----------------------------------------------------------------

  const SEVERITIES: seq<string> := ["expired", "missing", "ownerless", "unresolved", "stale", "not_comparable",
    "degraded", "active"]

  /** The place of a status in the list of severities; any other comes last. */
  function Place(status: string, k: nat): nat
    requires k <= 8
    decreases 8 - k
  {
    if k == 8 || SEVERITIES[k] == status then k else Place(status, k + 1)
  }

  lemma PlaceIsRank(status: string)
    ensures SeverityRank(status) == Place(status, 0) + 1
  {
    PlaceFour(status);
    PlaceEight(status);
  }

  lemma PlaceFour(status: string)
    ensures Place(status, 0)
            == if status == "expired" then 0 else if status == "missing" then 1 else if status == "ownerless" then 2
               else if status == "unresolved" then 3 else Place(status, 4)
  {
    assert Place(status, 2) == if SEVERITIES[2] == status then 2 else Place(status, 3);
    assert Place(status, 3) == if SEVERITIES[3] == status then 3 else Place(status, 4);
  }

  lemma PlaceEight(status: string)
    ensures Place(status, 4)
            == if status == "stale" then 4 else if status == "not_comparable" then 5 else if status == "degraded" then 6
               else if status == "active" then 7 else 8
  {
    assert Place(status, 6) == if SEVERITIES[6] == status then 6 else Place(status, 7);
    assert Place(status, 7) == if SEVERITIES[7] == status then 7 else Place(status, 8);
  }

  function Severity(status: string): nat {
    Place(status, 0)
  }

  /** By type, then the most severe status, then caption, then identifier. */
  predicate NodeFirst(a: Node, b: Node) {
    || Less(a.typ, b.typ)
    || (a.typ == b.typ && Severity(a.status) < Severity(b.status))
    || (a.typ == b.typ && Severity(a.status) == Severity(b.status) && Less(a.caption, b.caption))
    || (a.typ == b.typ && Severity(a.status) == Severity(b.status) && a.caption == b.caption && !Less(b.id, a.id))
  }

  /** By type, then source, then target. */
  predicate EdgeFirst(a: Edge, b: Edge) {
    || Less(a.typ, b.typ)
    || (a.typ == b.typ && Less(a.source, b.source))
    || (a.typ == b.typ && a.source == b.source && !Less(b.target, a.target))
  }

  /** The most severe first, then the greater impact, then the identifier. */
  predicate ActionFirst(a: Action, b: Action) {
    || Severity(a.severity) < Severity(b.severity)
    || (Severity(a.severity) == Severity(b.severity) && a.impact > b.impact)
    || (Severity(a.severity) == Severity(b.severity) && a.impact == b.impact && !Less(b.id, a.id))
  }

  lemma NotLessIsFirst(a: Node, b: Node)
    requires !NodeLess(b, a)
    ensures NodeFirst(a, b)
  {
    hide Less, SeverityRank, Severity;
    SeverityIsRank(a.status);
    SeverityIsRank(b.status);
    StrictText(a.typ, b.typ, a.typ);
    StrictText(a.caption, b.caption, a.caption);
  }

  lemma SeverityIsRank(status: string)
    ensures SeverityRank(status) == Severity(status) + 1
  {
    hide SeverityRank, Place;
    PlaceIsRank(status);
  }

  lemma NotLessEdgeIsFirst(a: Edge, b: Edge)
    requires !EdgeLess(b, a)
    ensures EdgeFirst(a, b)
  {
    hide Less;
    StrictText(a.typ, b.typ, a.typ);
    StrictText(a.source, b.source, a.source);
  }

  lemma NotLessActionIsFirst(a: Action, b: Action)
    requires !ActionLess(b, a)
    ensures ActionFirst(a, b)
  {
    hide Less, SeverityRank, Severity;
    SeverityIsRank(a.severity);
    SeverityIsRank(b.severity);
  }

  /** Main result: nodes, edges and actions of a graph are in this order, whatever its caps. */
  lemma GraphIsInOrder(inp: Input, maxNodes: int, maxEdges: int)
    ensures var g := GraphOf(inp, maxNodes, maxEdges);
            && (forall j, k :: 0 <= j < k < |g.nodes| ==> NodeFirst(g.nodes[j], g.nodes[k]))
            && (forall j, k :: 0 <= j < k < |g.edges| ==> EdgeFirst(g.edges[j], g.edges[k]))
            && (forall j, k :: 0 <= j < k < |g.actions| ==> ActionFirst(g.actions[j], g.actions[k]))
  {
    hide SortedNodes, SortedEdges, StableSort, NodeLess, EdgeLess, ActionLess, SummaryOf, DegradedReasons, CapReasons,
      KeptNodes, KeptEdges, FirstEdges, RawActions, NodeFirst, EdgeFirst, ActionFirst;
    var g := GraphOf(inp, maxNodes, maxEdges);
    var ns, es := SortedNodes(inp), SortedEdges(inp);
    NodeOrdering();
    EdgeOrdering();
    ActionOrdering();
    SortIsSorted(KeptNodes(ns, maxNodes, CapNode(inp.tenantID, inp.now)), NodeLess);
    SortIsSorted(FirstEdges(KeptEdges(ns, es, maxNodes), maxEdges), EdgeLess);
    SortIsSorted(RawActions(inp), ActionLess);
    forall j, k | 0 <= j < k < |g.nodes| ensures NodeFirst(g.nodes[j], g.nodes[k]) {
      NotLessIsFirst(g.nodes[j], g.nodes[k]);
    }
    forall j, k | 0 <= j < k < |g.edges| ensures EdgeFirst(g.edges[j], g.edges[k]) {
      NotLessEdgeIsFirst(g.edges[j], g.edges[k]);
    }
    forall j, k | 0 <= j < k < |g.actions| ensures ActionFirst(g.actions[j], g.actions[k]) {
      NotLessActionIsFirst(g.actions[j], g.actions[k]);
    }
  }

  // ---- Actions --------------------------------------------------------------

  /** What an item asks for: a gap, and the type, severity, impact and title of the action that mends it. */
  predicate ItemAsks(now: Instant, it: Item, a: Action) {
    || (it.status == "expired" && a.typ == "replace_expired_evidence" && a.severity == "expired" && a.impact == 25
        && a.title == "Replace expired evidence: " + it.title)
    || (AllSpace(it.ownerEmail) && AllSpace(it.ownerName) && a.typ == "assign_owner" && a.severity == "ownerless"
        && a.impact == 18 && a.title == "Assign owner to " + it.title)
    || (it.updatedAt != 0 && now - it.updatedAt > 180 * 86_400_000_000_000 && a.typ == "refresh_stale_evidence"
        && a.severity == "stale" && a.impact == 12 && a.title == "Refresh stale evidence: " + it.title)
    || (it.controlRefs == [] && a.typ == "add_control_mapping" && a.severity == "missing" && a.impact == 10
        && a.title == "Add control mapping for " + it.title)
    || (it.vendorRefs == [] && a.typ == "add_vendor_mapping" && a.severity == "missing" && a.impact == 7
        && a.title == "Add vendor mapping for " + it.title)
  }

  predicate ItemActionSays(now: Instant, it: Item, a: Action) {
    ItemAsks(now, it, a) && a.id == a.typ + ":" + Slugs.Slug(it.id) && a.targets == ["evidence:" + Slugs.Slug(it.id)]
  }

  /** What the tenant's history asks for. */
  predicate TenantActionSays(inp: Input, a: Action) {
    var tenant, reviews, packs := "tenant:" + Slugs.Slug(inp.tenantID), |inp.data.reviews|, |inp.data.proofpacks|;
    && a.id == a.typ + ":" + Slugs.Slug(inp.tenantID)
    && (|| (packs == 0 && a.typ == "create_proofpack" && a.severity == "missing" && a.impact == 16
            && a.title == "Create first proofpack" && a.targets == [tenant])
        || (reviews == 0 && a.typ == "complete_review" && a.severity == "missing" && a.impact == 20
            && a.title == "Complete first operational review" && a.targets == [tenant])
        || (reviews <= 1 && a.typ == "compare_reviews" && a.severity == "not_comparable" && a.impact == 11
            && a.title == "Generate enough reviews to compare" && a.targets == ["review_comparison:not_comparable"])
        || (reviews >= 4 && packs > 0 && a.typ == "generate_pilot_proof_bundle" && a.severity == "active"
            && a.impact == 9 && a.title == "Export pilot proof bundle"
            && a.targets == ["pilot_readiness:" + Slugs.Slug(inp.tenantID)])
        || (a.typ == "export_graph" && a.severity == "active" && a.impact == 6 && a.title == "Export evidence graph"
            && a.targets == [tenant]))
  }

  lemma OneAction(gap: bool, typ: string, severity: string, impact: int, title: string, it: Item, a: Action)
    ensures a in ItemAction(gap, typ, severity, impact, title, it) <==>
            && gap && a.typ == typ && a.severity == severity && a.impact == impact && a.title == title + it.title
            && a.id == a.typ + ":" + Slugs.Slug(it.id) && a.targets == ["evidence:" + Slugs.Slug(it.id)]
  {
    hide Slugs.Slug;
    EvidenceText(it.id);
  }

  lemma EvidenceText(id: string)
    ensures EvidenceNodeID(id) == "evidence:" + Slugs.Slug(id)
  {
    hide Slugs.Slug;
    assert "evidence" + ":" + Slugs.Slug(id) == "evidence" + (":" + Slugs.Slug(id));
  }

  lemma ItemActionsSay(now: Instant, it: Item, a: Action)
    ensures a in ItemActions(now, it) <==> ItemActionSays(now, it, a)
  {
    hide Slugs.Slug, ItemAction, EvidenceNodeID, ActionID, IsOwnerless, IsStale, IsExpired, AllSpace;
    GapsMean(it, now);
    OneAction(IsExpired(it), "replace_expired_evidence", "expired", 25, "Replace expired evidence: ", it, a);
    OneAction(IsOwnerless(it), "assign_owner", "ownerless", 18, "Assign owner to ", it, a);
    OneAction(IsStale(it, now), "refresh_stale_evidence", "stale", 12, "Refresh stale evidence: ", it, a);
    OneAction(it.controlRefs == [], "add_control_mapping", "missing", 10, "Add control mapping for ", it, a);
    OneAction(it.vendorRefs == [], "add_vendor_mapping", "missing", 7, "Add vendor mapping for ", it, a);
  }

  lemma OneTenantAction(wanted: bool, tenantID: string, typ: string, severity: string, impact: int, title: string,
          target: string, a: Action)
    ensures a in TenantAction(wanted, tenantID, typ, severity, impact, title, target) <==>
            && wanted && a.typ == typ && a.severity == severity && a.impact == impact && a.title == title
            && a.id == a.typ + ":" + Slugs.Slug(tenantID) && a.targets == [target]
  {
    hide Slugs.Slug;
  }

  lemma TenantTexts(id: string)
    ensures TenantNodeID(id) == "tenant:" + Slugs.Slug(id)
    ensures PilotNodeID(id) == "pilot_readiness:" + Slugs.Slug(id)
  {
    hide Slugs.Slug;
    assert "tenant" + ":" + Slugs.Slug(id) == "tenant" + (":" + Slugs.Slug(id));
    assert "pilot_readiness" + ":" + Slugs.Slug(id) == "pilot_readiness" + (":" + Slugs.Slug(id));
  }

  lemma TenantActionsSay(inp: Input, a: Action)
    ensures a in TenantActions(inp.tenantID, inp.data) <==> TenantActionSays(inp, a)
  {
    hide Slugs.Slug, TenantAction, TenantNodeID, PilotNodeID, ActionID;
    var id, d, tenant := inp.tenantID, inp.data, TenantNodeID(inp.tenantID);
    TenantTexts(id);
    OneTenantAction(|d.proofpacks| == 0, id, "create_proofpack", "missing", 16, "Create first proofpack", tenant, a);
    OneTenantAction(|d.reviews| == 0, id, "complete_review", "missing", 20, "Complete first operational review",
      tenant, a);
    OneTenantAction(|d.reviews| < 2, id, "compare_reviews", "not_comparable", 11,
      "Generate enough reviews to compare", NOT_COMPARABLE_ID, a);
    OneTenantAction(|d.reviews| >= 4 && |d.proofpacks| > 0, id, "generate_pilot_proof_bundle", "active", 9,
      "Export pilot proof bundle", PilotNodeID(id), a);
    OneTenantAction(true, id, "export_graph", "active", 6, "Export evidence graph", tenant, a);
  }

  /** Main result: the actions of a graph are exactly what its items and the tenant's history ask for, with their
      severities, impacts, titles and targets. */
  lemma ActionsSay(inp: Input, a: Action)
    ensures a in NextActions(inp) <==>
            (exists i :: 0 <= i < |inp.items| && ItemActionSays(inp.now, inp.items[i], a)) || TenantActionSays(inp, a)
  {
    hide NextActions, ItemActions, TenantActions, ItemActionSays, TenantActionSays;
    GraphClosure.ActionOrigin(inp, a);
    TenantActionsSay(inp, a);
    forall i | 0 <= i < |inp.items|
      ensures a in ItemActions(inp.now, inp.items[i]) <==> ItemActionSays(inp.now, inp.items[i], a)
    {
      ItemActionsSay(inp.now, inp.items[i], a);
    }
  }

  // ---- The summary ----------------------------------------------------------

  /** The counts, words and texts of the summary. */
  lemma SummarySays(inp: Input)
    ensures var s, reviews, packs := SummaryOf(inp), inp.data.reviews, inp.data.proofpacks;
            && s.totalEvidence == |inp.items| && s.ownerlessEvidence == |WithoutOwner(inp.items)|
            && s.expiredEvidence == |WithStatus(inp.items, "expired")|
            && s.staleEvidence == |NotUpdated(inp.items, inp.now)|
            && s.totalOwners == |StatsOf(inp.now, inp.items, inp.formats.fold).owners|
            && s.proofpackCount == |packs| && s.reviewCount == |reviews|
            && s.latestReviewAt == (if reviews == [] then None else Some(reviews[0].lastReviewedAt))
            && s.comparisonState == (if |reviews| <= 1 then "not_comparable" else "active")
            && s.pilotReadinessState
               == (if |reviews| <= 1 then "not_ready" else if |reviews| >= 4 && packs != [] then "ready_for_export"
                   else "comparison_ready")
            && s.graphHealthScore == Health(inp.now, inp.items, inp.data)
            && |s.topNextActions| == (if |NextActions(inp)| < 5 then |NextActions(inp)| else 5)
            && (forall k :: 0 <= k < |s.topNextActions| ==> s.topNextActions[k] == NextActions(inp)[k].title)
  {
    hide NextActions, Health, TopRisks, StatsOf, WithoutOwner, WithStatus, NotUpdated;
    StatsMean(inp.now, inp.items, inp.formats.fold);
  }

  /** A risk that an item names, or one of the three lines about gaps. */
  predicate IsRisk(inp: Input, r: string) {
    || (exists i :: 0 <= i < |inp.items| && r in inp.items[i].riskRefs)
    || (r == "expired evidence" && WithStatus(inp.items, "expired") != {})
    || (r == "ownerless evidence" && WithoutOwner(inp.items) != {})
    || (r == "stale evidence" && NotUpdated(inp.items, inp.now) != {})
  }

  lemma FlagsAreGaps(expired: nat, ownerless: nat, stale: nat, r: string)
    ensures r in RiskFlags(expired, ownerless, stale) <==>
            || (r == "expired evidence" && expired > 0) || (r == "ownerless evidence" && ownerless > 0)
            || (r == "stale evidence" && stale > 0)
  {
  }

  lemma RiskIsListed(inp: Input, r: string)
    ensures var stats := StatsOf(inp.now, inp.items, inp.formats.fold);
            r in Survivors(FlatMap(inp.items, RiskRefsOf()), Itself)
                 + RiskFlags(stats.expired, stats.ownerless, stats.stale)
            <==> IsRisk(inp, r)
  {
    hide StatsOf, FlatMap, Survivors, Put, RiskFlags, WithStatus, WithoutOwner, NotUpdated;
    var stats, log := StatsOf(inp.now, inp.items, inp.formats.fold), FlatMap(inp.items, RiskRefsOf());
    StatsMean(inp.now, inp.items, inp.formats.fold);
    FlagsAreGaps(stats.expired, stats.ownerless, stats.stale, r);
    SurvivorsEnumerate(log, Itself);
    PutHolds(log, Itself);
    RisksAreLogged(inp.now, inp.items, inp.formats.fold);
    assert r in Survivors(log, Itself) <==> Itself(r) in Put(log, Itself) && Put(log, Itself)[Itself(r)] == r;
    assert r in Put(log, Itself) ==> Itself(Put(log, Itself)[r]) == r;
  }

  /** The top risks are alphabetical, at most five, and no other risk comes before them. */
  lemma TopRisksSay(inp: Input)
    ensures var top := SummaryOf(inp).topRisks;
            && |top| <= 5
            && (forall j, k :: 0 <= j < k < |top| ==> !Less(top[k], top[j]))
            && (forall k :: 0 <= k < |top| ==> IsRisk(inp, top[k]))
            && (forall r :: IsRisk(inp, r) ==> r in top || (|top| == 5 && !Less(r, top[4])))
  {
    hide StatsOf, FlatMap, Survivors, StableSort, Less, RiskFlags, IsRisk, NextActions, Health;
    var stats := StatsOf(inp.now, inp.items, inp.formats.fold);
    var all := Survivors(FlatMap(inp.items, RiskRefsOf()), Itself)
               + RiskFlags(stats.expired, stats.ownerless, stats.stale);
    var sorted := StableSort(all, Less);
    TextOrdering();
    SortIsSorted(all, Less);
    SortIsPermutation(all, Less);
    SameMembers(all, sorted);
    forall r ensures r in sorted <==> IsRisk(inp, r) {
      RiskIsListed(inp, r);
    }
    var top := AtMost(sorted, 5);
    assert SummaryOf(inp).topRisks == top;
    forall k | 0 <= k < |top| ensures IsRisk(inp, top[k]) {
      assert sorted[k] in sorted;
    }
    forall r | IsRisk(inp, r) ensures r in top || (|top| == 5 && !Less(r, top[4])) {
      var k :| 0 <= k < |sorted| && sorted[k] == r;
      if k < |top| {
        assert top[k] == r;
      }
    }
  }

  // ---- Reasons --------------------------------------------------------------

  /** The reasons of a finished graph: those of its records, and one for each cap that cut something off. */
  lemma GraphReasonsSay(inp: Input, maxNodes: int, maxEdges: int)
    requires maxNodes > 0 && maxEdges > 0
    ensures var g, n, m := GraphOf(inp, maxNodes, maxEdges), |SortedNodes(inp)|, |SortedEdges(inp)|;
            var left := |Joined(SortedNodes(inp), SortedEdges(inp), maxNodes)|;
            g.reasons == Filter(REASONS, (r: Reason) => Holds(r, inp.now, inp.items, inp.data))
                         + (if n > maxNodes then [NodesCapped(maxNodes, n)] else [])
                         + (if left > maxEdges then [EdgesCapped(maxEdges, m)] else [])
  {
    hide SortedNodes, SortedEdges, StableSort, NodeLess, EdgeLess, SummaryOf, DegradedReasons, KeptNodes, KeptEdges,
      FirstEdges, NextActions, Holds, Filter, REASONS, Joined;
    ReasonsMean(inp.now, inp.items, inp.data);
    var at := KeptPlaces(SortedNodes(inp), SortedEdges(inp), maxNodes);
  }

  // ---- Caps -----------------------------------------------------------------

  /** One of the first `n` nodes has this identifier. */
  predicate IsAmong(ns: seq<Node>, n: int, id: string) {
    exists i :: 0 <= i < |ns| && i < n && ns[i].id == id
  }

  /** The places of the edges that join two of the first `n` nodes; of all edges when there are no more nodes. */
  function Joined(ns: seq<Node>, es: seq<Edge>, n: int): set<nat> {
    set k: nat | k < |es| && (|ns| <= n || (IsAmong(ns, n, es[k].source) && IsAmong(ns, n, es[k].target)))
  }

  predicate InOrder(at: seq<nat>) {
    forall j, k :: 0 <= j < k < |at| ==> at[j] < at[k]
  }

  predicate TakenFrom(edges: seq<Edge>, es: seq<Edge>, at: seq<nat>) {
    |at| == |edges| && forall j :: 0 <= j < |at| ==> at[j] < |es| && edges[j] == es[at[j]]
  }

  lemma KeptPlaces(ns: seq<Node>, es: seq<Edge>, maxNodes: int) returns (at: seq<nat>)
    requires maxNodes > 0
    ensures TakenFrom(KeptEdges(ns, es, maxNodes), es, at) && InOrder(at)
    ensures forall k :: k in at <==> k in Joined(ns, es, maxNodes)
    ensures |KeptEdges(ns, es, maxNodes)| == |Joined(ns, es, maxNodes)|
  {
    hide Filter, Count;
    if |ns| <= maxNodes {
      at := seq(|es|, k requires 0 <= k < |es| => k);
      forall k: nat | k in Joined(ns, es, maxNodes) ensures k in at {
        assert at[k] == k;
      }
    } else {
      var p := Within(Ids(ns[..maxNodes], NodeKey));
      at := FilterPlaces(es, p);
      JoinedArePlaces(ns, es, maxNodes);
    }
    DistinctPlaces(at);
    assert Taken(at) == Joined(ns, es, maxNodes);
  }

  lemma JoinedArePlaces(ns: seq<Node>, es: seq<Edge>, maxNodes: int)
    requires 0 < maxNodes < |ns|
    ensures Joined(ns, es, maxNodes) == Places(es, Within(Ids(ns[..maxNodes], NodeKey)))
  {
    forall id ensures id in Ids(ns[..maxNodes], NodeKey) <==> IsAmong(ns, maxNodes, id) {
      if i :| 0 <= i < |ns| && i < maxNodes && ns[i].id == id {
        assert NodeKey(ns[..maxNodes][i]) == id;
      }
    }
  }

  function Taken(at: seq<nat>): set<nat> {
    set k | k in at
  }

  lemma {:induction false} DistinctPlaces(at: seq<nat>)
    requires InOrder(at)
    ensures |Taken(at)| == |at|
  {
    hide Taken;
    if at == [] {
      NoneTaken();
    } else {
      var front, last := at[..|at| - 1], at[|at| - 1];
      DistinctPlaces(front);
      OneMoreTaken(front, last);
      assert at == front + [last];
      assert last !in front;
      assert |Taken(front) + {last}| == |Taken(front)| + 1;
    }
  }

  lemma NoneTaken()
    ensures Taken([]) == {}
  {
  }

  lemma OneMoreTaken(front: seq<nat>, last: nat)
    ensures Taken(front + [last]) == Taken(front) + {last}
    ensures last in Taken(front) <==> last in front
  {
  }

  /** Main result: of the sorted edges a graph keeps those that join two of its first nodes, in order; if not all of
      them, then as many as the edge cap lets through, and the first ones. */
  lemma GraphKeeps(inp: Input, maxNodes: int, maxEdges: int) returns (at: seq<nat>)
    requires maxNodes > 0 && maxEdges > 0
    ensures TakenFrom(GraphOf(inp, maxNodes, maxEdges).edges, SortedEdges(inp), at) && InOrder(at)
    ensures |at| <= maxEdges
    ensures forall k :: k in at ==> k in Joined(SortedNodes(inp), SortedEdges(inp), maxNodes)
    ensures forall k :: k in Joined(SortedNodes(inp), SortedEdges(inp), maxNodes) ==>
              k in at || (|at| == maxEdges && forall j :: 0 <= j < |at| ==> at[j] < k)
  {
    hide SortedNodes, SortedEdges, GraphOf, KeptEdges, Joined;
    var ns, es := SortedNodes(inp), SortedEdges(inp);
    GraphTheorems.GraphIsCapped(inp, maxNodes, maxEdges);
    var all := KeptPlaces(ns, es, maxNodes);
    at := AtMost(all, maxEdges);
    forall k | k in Joined(ns, es, maxNodes)
      ensures k in at || (|at| == maxEdges && forall j :: 0 <= j < |at| ==> at[j] < k)
    {
      var i :| 0 <= i < |all| && all[i] == k;
      if i < |at| {
        assert at[i] == k;
      }
    }
  }

  // ---- The history of the tenant --------------------------------------------

  function At<T>(time: T -> Instant, t: Instant): T -> bool {
    (x: T) => time(x) == t
  }

  /** Newest first, and records of one time in the order in which they were read. */
  ghost predicate IsNewestFirst<T(!new)>(sorted: seq<T>, raw: seq<T>, time: T -> Instant) {
    && multiset(sorted) == multiset(raw)
    && (forall j, k :: 0 <= j < k < |sorted| ==> time(sorted[j]) >= time(sorted[k]))
    && (forall t :: Filter(sorted, At(time, t)) == Filter(raw, At(time, t)))
  }

  lemma LaterSorts<T(!new)>(raw: seq<T>, less: (T, T) -> bool, time: T -> Instant)
    requires forall a, b :: less(a, b) <==> time(a) > time(b)
    ensures IsNewestFirst(StableSort(raw, less), raw, time)
  {
    SortIsPermutation(raw, less);
    SortIsSorted(raw, less);
    forall t ensures Filter(StableSort(raw, less), At(time, t)) == Filter(raw, At(time, t)) {
      SortIsStable(raw, less, At(time, t));
    }
  }

  /** What the builder works on: the records as they were read, the newest first. */
  lemma HistoryIsNewestFirst(tenantID: string, now: Instant, items: seq<Item>, loaded: TenantData,
          narratives: seq<Narrative>, formats: Formats)
    ensures var inp := InputOf(tenantID, now, items, loaded, narratives, formats);
            && inp.tenantID == tenantID && inp.now == now && inp.items == items && inp.narratives == narratives
            && inp.data.opSnapshots == loaded.opSnapshots
            && IsNewestFirst(inp.data.proofpacks, loaded.proofpacks, (p: Proofpack) => p.createdAt)
            && IsNewestFirst(inp.data.reviews, loaded.reviews, (r: ReviewSnapshot) => r.lastReviewedAt)
            && IsNewestFirst(inp.data.events, loaded.events, (ev: OperationalEvent) => ev.createdAt)
            && IsNewestFirst(inp.data.reports, loaded.reports, (r: ReviewReport) => r.generatedAt)
  {
    hide StableSort, IsNewestFirst;
    LaterSorts(loaded.proofpacks, PackedLater, (p: Proofpack) => p.createdAt);
    LaterSorts(loaded.reviews, ReviewedLater, (r: ReviewSnapshot) => r.lastReviewedAt);
    LaterSorts(loaded.events, LoggedLater, (ev: OperationalEvent) => ev.createdAt);
    LaterSorts(loaded.reports, ReportedLater, (r: ReviewReport) => r.generatedAt);
  }
}

/** What holds of every graph that `Build` returns. */
module GraphTheorems {
  import Slugs
  import Records
  import Evidence
  import opened Sorting
  import opened Keyed
  import opened GraphModel
  import GraphHealth
  import opened GraphOrder
  import opened GraphBuilder
  import opened GraphSources
  import opened GraphClosure
  import GraphRefs
  import GraphIdentity
  import opened EvidenceGraph

  // ---- Before the caps ------------------------------------------------------

  lemma SortedMembers<V(!new)>(log: seq<V>, id: V -> string, less: (V, V) -> bool, v: V)
    ensures v in StableSort(Survivors(log, id), less) <==> id(v) in Put(log, id) && Put(log, id)[id(v)] == v
  {
    hide StableSort, Survivors, Put;
    SortIsPermutation(Survivors(log, id), less);
    SameMembers(Survivors(log, id), StableSort(Survivors(log, id), less));
    SurvivorsEnumerate(log, id);
  }

  lemma FilledNode(inp: Input, k: nat)
    requires k < |NodeLog(inp)|
    ensures FillNodes(NodeLog(inp), inp.now)[k].id == NodeLog(inp)[k].id
  {
    hide NodeLog;
  }

  /** The sorted nodes are those of the log, one for each identifier. */
  lemma SortedNodeIDs(inp: Input, id: string)
    ensures HasID(SortedNodes(inp), id) <==> HasID(NodeLog(inp), id)
  {
    hide NodeLog, StableSort, Survivors, Put, NodeLess, FillNodes;
    var log, ns := FillNodes(NodeLog(inp), inp.now), SortedNodes(inp);
    PutHolds(log, NodeKey);
    FilledLength(inp);
    if HasID(ns, id) {
      var k :| 0 <= k < |ns| && ns[k].id == id;
      SortedMembers(log, NodeKey, NodeLess, ns[k]);
      assert ns[k] in log;
      var m :| 0 <= m < |log| && log[m] == ns[k];
      FilledNode(inp, m);
    }
    if HasID(NodeLog(inp), id) {
      var m :| 0 <= m < |NodeLog(inp)| && NodeLog(inp)[m].id == id;
      FilledNode(inp, m);
      assert NodeKey(log[m]) == id;
      assert id in Put(log, NodeKey);
      var n := Put(log, NodeKey)[id];
      SortedMembers(log, NodeKey, NodeLess, n);
      var k :| 0 <= k < |ns| && ns[k] == n;
    }
  }

  lemma FilledLength(inp: Input)
    ensures |FillNodes(NodeLog(inp), inp.now)| == |NodeLog(inp)|
    ensures |FillEdges(EdgeLog(inp), inp.now)| == |EdgeLog(inp)|
  {
    hide NodeLog, EdgeLog;
  }

  lemma FilledEdge(inp: Input, k: nat)
    requires k < |EdgeLog(inp)|
    ensures var e := FillEdges(EdgeLog(inp), inp.now)[k];
            TripleOf(e) == TripleOf(EdgeLog(inp)[k]) && e.id == Slugs.EdgeID(e.typ, e.source, e.target)
  {
    hide EdgeLog, Slugs.EdgeID;
  }

  /** Every sorted edge was emitted, and is stored under the identifier of its triple. */
  lemma SortedEdgeIsEmitted(inp: Input, e: Edge)
    requires e in SortedEdges(inp)
    ensures Emits(EdgeLog(inp), TripleOf(e)) && e.id == Slugs.EdgeID(e.typ, e.source, e.target)
  {
    hide EdgeLog, StableSort, Survivors, Put, EdgeLess, FillEdges, Slugs.EdgeID;
    var log := FillEdges(EdgeLog(inp), inp.now);
    PutHolds(log, EdgeKey);
    FilledLength(inp);
    SortedMembers(log, EdgeKey, EdgeLess, e);
    assert e in log;
    var m :| 0 <= m < |log| && log[m] == e;
    FilledEdge(inp, m);
  }

  /** Keyed storage loses no edge: every justified triple has its sorted edge. */
  lemma JustifiedEdgeIsSorted(inp: Input, t: Triple) returns (e: Edge)
    requires GraphRefs.StampsAreText(inp) && Justified(inp, t)
    ensures e in SortedEdges(inp) && TripleOf(e) == t
  {
    hide EdgeLog, StableSort, Survivors, Put, EdgeLess, FillEdges, Slugs.EdgeID, GraphRefs.StampsAreText, Justified,
      SortedEdges;
    var log := FillEdges(EdgeLog(inp), inp.now);
    PutHolds(log, EdgeKey);
    FilledLength(inp);
    EmittedIffJustified(inp, t);
    var m :| 0 <= m < |EdgeLog(inp)| && TripleOf(EdgeLog(inp)[m]) == t;
    FilledEdge(inp, m);
    var key := EdgeKey(log[m]);
    assert key in Ids(log, EdgeKey);
    e := Put(log, EdgeKey)[key];
    assert EdgeKey(e) == key;
    StoredIsSorted(inp, e);
    SortedEdgeIsEmitted(inp, e);
    EmittedIffJustified(inp, TripleOf(e));
    GraphIdentity.EdgeIDsSeparate(inp, TripleOf(e), t);
  }

  lemma StoredIsSorted(inp: Input, e: Edge)
    requires var m := Put(FillEdges(EdgeLog(inp), inp.now), EdgeKey); EdgeKey(e) in m && m[EdgeKey(e)] == e
    ensures e in SortedEdges(inp)
  {
    hide EdgeLog, StableSort, Survivors, Put, EdgeLess, FillEdges;
    SortedMembers(FillEdges(EdgeLog(inp), inp.now), EdgeKey, EdgeLess, e);
  }

  lemma SortedListsAreSorted(inp: Input)
    ensures Sorted(SortedNodes(inp), NodeLess) && Sorted(SortedEdges(inp), EdgeLess)
  {
    hide NodeLog, EdgeLog, StableSort, Survivors, NodeLess, EdgeLess, FillNodes, FillEdges;
    NodeOrdering();
    EdgeOrdering();
    SortIsSorted(Survivors(FillNodes(NodeLog(inp), inp.now), NodeKey), NodeLess);
    SortIsSorted(Survivors(FillEdges(EdgeLog(inp), inp.now), EdgeKey), EdgeLess);
  }

  // ---- After the caps -------------------------------------------------------

  /** An edge of the graph is one of the sorted edges; the nodes have the kept identifiers. */
  lemma GraphEdgeIsSorted(inp: Input, maxNodes: int, maxEdges: int, e: Edge)
    requires maxNodes > 0 && maxEdges > 0 && e in GraphOf(inp, maxNodes, maxEdges).edges
    ensures e in SortedEdges(inp)
    ensures Overflows(|SortedNodes(inp)|, maxNodes) ==>
              e.source in Ids(SortedNodes(inp)[..maxNodes], NodeKey)
                && e.target in Ids(SortedNodes(inp)[..maxNodes], NodeKey)
  {
    hide SortedNodes, SortedEdges, StableSort, EdgeLess, NodeLess, SummaryOf, GraphHealth.DegradedReasons,
      CapReasons, NextActions, FirstEdges, KeptEdges, KeptNodes;
    var ns, es := SortedNodes(inp), SortedEdges(inp);
    var kept := FirstEdges(KeptEdges(ns, es, maxNodes), maxEdges);
    SortIsPermutation(kept, EdgeLess);
    SameMembers(kept, StableSort(kept, EdgeLess));
    CapsBoundAndClose(ns, es, maxNodes, maxEdges, CapNode(inp.tenantID, inp.now));
    KeptWithoutOverflow(ns, es, maxNodes, maxEdges, e);
  }

  lemma KeptWithoutOverflow(ns: seq<Node>, es: seq<Edge>, maxNodes: int, maxEdges: int, e: Edge)
    requires e in FirstEdges(KeptEdges(ns, es, maxNodes), maxEdges)
    ensures !Overflows(|ns|, maxNodes) ==> e in es
  {
  }

  lemma GraphNodeIDs(inp: Input, maxNodes: int, maxEdges: int, id: string)
    requires maxNodes > 0
    ensures HasID(GraphOf(inp, maxNodes, maxEdges).nodes, id) <==>
            if Overflows(|SortedNodes(inp)|, maxNodes) then id in Ids(SortedNodes(inp)[..maxNodes], NodeKey)
              || id == CAP_NODE_ID
            else HasID(SortedNodes(inp), id)
  {
    hide SortedNodes, SortedEdges, StableSort, EdgeLess, NodeLess, SummaryOf, GraphHealth.DegradedReasons,
      CapReasons, NextActions, FirstEdges, KeptEdges, HasID;
    var ns, cap := SortedNodes(inp), CapNode(inp.tenantID, inp.now);
    var kept := KeptNodes(ns, maxNodes, cap);
    SortIsPermutation(kept, NodeLess);
    SameIDs(kept, StableSort(kept, NodeLess), id);
    if Overflows(|ns|, maxNodes) {
      HasIDConcat(ns[..maxNodes], [cap], id);
      HasIDOne(cap, id);
      HasIDIsIn(ns[..maxNodes], id);
    }
  }

  lemma HasIDIsIn(ns: seq<Node>, id: string)
    ensures HasID(ns, id) <==> id in Ids(ns, NodeKey)
  {
  }

  lemma SameIDs(s: seq<Node>, t: seq<Node>, id: string)
    requires multiset(s) == multiset(t)
    ensures HasID(s, id) <==> HasID(t, id)
  {
    SameMembers(s, t);
    if HasID(s, id) {
      var k :| 0 <= k < |s| && s[k].id == id;
      assert s[k] in t;
    }
    if HasID(t, id) {
      var k :| 0 <= k < |t| && t[k].id == id;
      assert t[k] in s;
    }
  }

  /** Closure of every returned graph. The target of an edge is a node. Its source is a node too, except
      exactly when the edge comes from an event about an unlisted entity and the node cap did not fire; once
      the node cap fires no edge dangles. */
  lemma GraphCloses(inp: Input, maxNodes: int, maxEdges: int, e: Edge)
    requires maxNodes > 0 && maxEdges > 0 && e in GraphOf(inp, maxNodes, maxEdges).edges
    ensures HasID(GraphOf(inp, maxNodes, maxEdges).nodes, e.target)
    ensures HasID(GraphOf(inp, maxNodes, maxEdges).nodes, e.source) <==>
            Overflows(|SortedNodes(inp)|, maxNodes) || !OrphanEvent(inp, TripleOf(e))
  {
    hide GraphOf, SortedNodes, SortedEdges, HasID, OrphanEvent, Slugs.EdgeID;
    GraphEdgeIsSorted(inp, maxNodes, maxEdges, e);
    GraphNodeIDs(inp, maxNodes, maxEdges, e.target);
    GraphNodeIDs(inp, maxNodes, maxEdges, e.source);
    SortedEdgeIsEmitted(inp, e);
    EmittedIffJustified(inp, TripleOf(e));
    JustifiedEdgesClose(inp, TripleOf(e));
    SortedNodeIDs(inp, e.source);
    SortedNodeIDs(inp, e.target);
  }

  /** No cap fires. */
  ghost predicate Uncut(inp: Input, maxNodes: int, maxEdges: int) {
    maxNodes > 0 && maxEdges > 0 && CapReasons(SortedNodes(inp), SortedEdges(inp), maxNodes, maxEdges) == []
  }

  /** Some edge starts at no node. */
  ghost predicate Dangles(g: Graph) {
    exists k :: 0 <= k < |g.edges| && !HasID(g.nodes, g.edges[k].source)
  }

  /** The shape of a capped graph: at most `maxNodes` nodes and one cap node, at most `maxEdges` edges; the
      edges are, in sorted order, the first `maxEdges` of those between the first `maxNodes` nodes; the nodes are
      those first `maxNodes` in unchanged order with the cap node put among them. */
  lemma GraphIsCapped(inp: Input, maxNodes: int, maxEdges: int)
    requires maxNodes > 0 && maxEdges > 0
    ensures var g, ns, es := GraphOf(inp, maxNodes, maxEdges), SortedNodes(inp), SortedEdges(inp);
            && |g.nodes| <= maxNodes + 1 && |g.edges| <= maxEdges
            && g.edges == FirstEdges(KeptEdges(ns, es, maxNodes), maxEdges)
            && (if Overflows(|ns|, maxNodes)
                then Filter(g.nodes, NodesBut(CapNode(inp.tenantID, inp.now))) == ns[..maxNodes]
                  && |g.nodes| == maxNodes + 1
                else g.nodes == ns)
  {
    hide SortedNodes, SortedEdges, StableSort, EdgeLess, NodeLess, SummaryOf, GraphHealth.DegradedReasons,
      CapReasons, NextActions, NodeLog, HasID, Filter;
    var ns, es, cap := SortedNodes(inp), SortedEdges(inp), CapNode(inp.tenantID, inp.now);
    SortedListsAreSorted(inp);
    CapsBoundAndClose(ns, es, maxNodes, maxEdges, cap);
    CappedEdgesStaySorted(ns, es, maxNodes, maxEdges);
    if Overflows(|ns|, maxNodes) {
      NoCapNodeYet(inp);
      CapNodeIsInserted(ns, maxNodes, cap);
      SortIsPermutation(KeptNodes(ns, maxNodes, cap), NodeLess);
    } else {
      SortFixesSorted(ns, NodeLess);
    }
  }

  /** One of the first edges, as many as the cap lets through, comes from an event about an unlisted entity. */
  ghost predicate SomeOrphan(inp: Input, maxEdges: int) {
    exists k :: 0 <= k < |SortedEdges(inp)| && k < maxEdges && OrphanEvent(inp, TripleOf(SortedEdges(inp)[k]))
  }

  lemma GraphEdgesAreFirst(inp: Input, maxNodes: int, maxEdges: int)
    requires maxNodes > 0 && maxEdges > 0 && !Overflows(|SortedNodes(inp)|, maxNodes)
    ensures GraphOf(inp, maxNodes, maxEdges).edges
            == if |SortedEdges(inp)| > maxEdges then SortedEdges(inp)[..maxEdges] else SortedEdges(inp)
  {
    hide GraphOf, SortedNodes, SortedEdges;
    GraphIsCapped(inp, maxNodes, maxEdges);
  }

  lemma DanglesIffOrphan(inp: Input, maxNodes: int, maxEdges: int)
    requires maxNodes > 0 && maxEdges > 0 && !Overflows(|SortedNodes(inp)|, maxNodes)
    ensures Dangles(GraphOf(inp, maxNodes, maxEdges)) <==> SomeOrphan(inp, maxEdges)
  {
    hide GraphOf, SortedNodes, SortedEdges, HasID, OrphanEvent;
    var g, es := GraphOf(inp, maxNodes, maxEdges), SortedEdges(inp);
    GraphEdgesAreFirst(inp, maxNodes, maxEdges);
    forall k | 0 <= k < |g.edges|
      ensures g.edges[k] == es[k]
      ensures !HasID(g.nodes, g.edges[k].source) <==> OrphanEvent(inp, TripleOf(es[k]))
    {
      GraphCloses(inp, maxNodes, maxEdges, g.edges[k]);
    }
    if k :| 0 <= k < |es| && k < maxEdges && OrphanEvent(inp, TripleOf(es[k])) {
      assert !HasID(g.nodes, g.edges[k].source);
    }
  }

  /** A graph whose node cap fired has no dangling edge; any other has, exactly when one of the first sorted edges, as
      many as the edge cap lets through, comes from an event about an unlisted entity; and in an uncut one every event
      that names such an entity has its edge. */
  lemma GraphDanglesIff(inp: Input, maxNodes: int, maxEdges: int)
    requires maxNodes > 0 && maxEdges > 0 && GraphRefs.StampsAreText(inp)
    ensures Overflows(|SortedNodes(inp)|, maxNodes) ==> !Dangles(GraphOf(inp, maxNodes, maxEdges))
    ensures !Overflows(|SortedNodes(inp)|, maxNodes) ==>
              (Dangles(GraphOf(inp, maxNodes, maxEdges)) <==> SomeOrphan(inp, maxEdges))
    ensures Uncut(inp, maxNodes, maxEdges) ==>
              (Dangles(GraphOf(inp, maxNodes, maxEdges)) <==>
               exists i :: 0 <= i < |inp.data.events| && NamesUnlisted(inp, inp.data.events[i]))
  {
    hide GraphOf, SortedNodes, SortedEdges, HasID, GraphRefs.StampsAreText, Listed, Justified, KeptEdges, SomeOrphan;
    var g := GraphOf(inp, maxNodes, maxEdges);
    if !Overflows(|SortedNodes(inp)|, maxNodes) {
      DanglesIffOrphan(inp, maxNodes, maxEdges);
    }
    if k :| 0 <= k < |g.edges| && !HasID(g.nodes, g.edges[k].source) {
      GraphCloses(inp, maxNodes, maxEdges, g.edges[k]);
    }
    if Uncut(inp, maxNodes, maxEdges) {
      if i :| 0 <= i < |inp.data.events| && NamesUnlisted(inp, inp.data.events[i]) {
        UnlistedDangles(inp, maxNodes, maxEdges, i);
      }
    }
  }

  ghost predicate NamesUnlisted(inp: Input, ev: Records.OperationalEvent) {
    ev.entityID != "" && !Listed(inp, ev.entityID)
  }

  lemma UnlistedDangles(inp: Input, maxNodes: int, maxEdges: int, i: nat)
    requires Uncut(inp, maxNodes, maxEdges) && GraphRefs.StampsAreText(inp)
    requires i < |inp.data.events| && NamesUnlisted(inp, inp.data.events[i])
    ensures Dangles(GraphOf(inp, maxNodes, maxEdges))
  {
    hide GraphOf, SortedNodes, SortedEdges, HasID, GraphRefs.StampsAreText, Listed, KeptEdges, NextActions, EventSource,
      EventNodeID, FromItem, FromItemNeed, FromTenantNeed, FromManifest, FromReview, FromReport, FromExport,
      FromNarrative, FromComparison;
    var g, ev := GraphOf(inp, maxNodes, maxEdges), inp.data.events[i];
    var t := Triple("GENERATED_EVENT", EventSource(inp, ev), EventNodeID(inp.formats, ev, i));
    assert FromEvent(inp, i, ev, t);
    assert OrphanEvent(inp, t);
    GraphFollowsSourceRules(inp, maxNodes, maxEdges, t);
    var k :| 0 <= k < |g.edges| && TripleOf(g.edges[k]) == t;
    GraphCloses(inp, maxNodes, maxEdges, g.edges[k]);
  }

  /** The source rules on the output: every edge of a graph is justified by the records, and when no cap
      fires every justified edge is there. */
  lemma GraphFollowsSourceRules(inp: Input, maxNodes: int, maxEdges: int, t: Triple)
    requires maxNodes > 0 && maxEdges > 0 && GraphRefs.StampsAreText(inp)
    ensures Emits(GraphOf(inp, maxNodes, maxEdges).edges, t) ==> Justified(inp, t)
    ensures CapReasons(SortedNodes(inp), SortedEdges(inp), maxNodes, maxEdges) == [] && Justified(inp, t) ==>
              Emits(GraphOf(inp, maxNodes, maxEdges).edges, t)
  {
    hide SortedNodes, SortedEdges, StableSort, Justified, EdgeLess, NodeLess, SummaryOf, GraphHealth.DegradedReasons,
      NextActions, GraphRefs.StampsAreText, Slugs.EdgeID, EdgeLog;
    var g := GraphOf(inp, maxNodes, maxEdges);
    if Emits(g.edges, t) {
      var k :| 0 <= k < |g.edges| && TripleOf(g.edges[k]) == t;
      GraphEdgeIsSorted(inp, maxNodes, maxEdges, g.edges[k]);
      SortedEdgeIsEmitted(inp, g.edges[k]);
      EmittedIffJustified(inp, t);
    }
    if CapReasons(SortedNodes(inp), SortedEdges(inp), maxNodes, maxEdges) == [] && Justified(inp, t) {
      var e := JustifiedEdgeIsSorted(inp, t);
      var es := SortedEdges(inp);
      SortIsPermutation(es, EdgeLess);
      SameMembers(es, StableSort(es, EdgeLess));
      assert e in g.edges;
    }
  }

  lemma NoCapNodeYet(inp: Input)
    ensures forall i :: 0 <= i < |SortedNodes(inp)| ==> SortedNodes(inp)[i] != CapNode(inp.tenantID, inp.now)
  {
    hide SortedNodes, NodeLog;
    CapIDIsFree(inp);
    SortedNodeIDs(inp, CAP_NODE_ID);
    forall i | 0 <= i < |SortedNodes(inp)|
      ensures SortedNodes(inp)[i].id != CAP_NODE_ID
    {
      assert SortedNodes(inp)[i].id == CAP_NODE_ID ==> HasID(SortedNodes(inp), CAP_NODE_ID);
    }
  }

  /** No two nodes of a graph share an identifier and no two edges share a triple, so its sorted lists are the
      only sorted arrangements of their members. */
  lemma SortedListsAreUnique(inp: Input)
    ensures DistinctNodeIDs(SortedNodes(inp)) && DistinctTriples(SortedEdges(inp))
    ensures forall ns :: multiset(ns) == multiset(SortedNodes(inp)) && Sorted(ns, NodeLess) ==> ns == SortedNodes(inp)
    ensures forall es :: multiset(es) == multiset(SortedEdges(inp)) && Sorted(es, EdgeLess) ==> es == SortedEdges(inp)
  {
    hide NodeLog, EdgeLog, StableSort, Survivors, Put, NodeLess, EdgeLess, FillNodes, FillEdges;
    var nodeLog, edgeLog := FillNodes(NodeLog(inp), inp.now), FillEdges(EdgeLog(inp), inp.now);
    SortedEnumerates(nodeLog, NodeKey, NodeLess);
    SortedEnumerates(edgeLog, EdgeKey, EdgeLess);
    FilledIDs(EdgeLog(inp), inp.now);
    EnumeratedTriples(SortedEdges(inp), edgeLog);
    var ns := SortedNodes(inp);
    forall i, j | 0 <= i < j < |ns| ensures ns[i].id != ns[j].id {
      assert ns[i] in ns && ns[j] in ns;
      assert NodeKey(ns[i]) == ns[i].id && NodeKey(ns[j]) == ns[j].id;
    }
    SortedListsAreSorted(inp);
    NodesSeparate(ns);
    EdgesSeparate(SortedEdges(inp));
    forall s | multiset(s) == multiset(ns) && Sorted(s, NodeLess) ensures s == ns {
      SortedIsUnique(ns, s, NodeLess);
    }
    forall s | multiset(s) == multiset(SortedEdges(inp)) && Sorted(s, EdgeLess) ensures s == SortedEdges(inp) {
      SortedIsUnique(SortedEdges(inp), s, EdgeLess);
    }
  }

  lemma SortedEnumerates<V(!new)>(log: seq<V>, id: V -> string, less: (V, V) -> bool)
    ensures Enumerates(StableSort(Survivors(log, id), less), Put(log, id), id)
  {
    hide StableSort, Survivors, Put;
    var s := Survivors(log, id);
    var t := StableSort(s, less);
    SurvivorsEnumerate(log, id);
    SortIsPermutation(s, less);
    SameMembers(s, t);
    DistinctUpToOrder(s, t);
  }

  lemma DistinctUpToOrder<V>(s: seq<V>, t: seq<V>)
    requires NoDuplicates(s) && multiset(s) == multiset(t)
    ensures NoDuplicates(t)
  {
    CountsOfDistinct(s);
    forall i, j | 0 <= i < j < |t|
      ensures t[i] != t[j]
    {
      if t[i] == t[j] {
        TwiceCounts(t, i, j);
      }
    }
  }

  // ---- Tenant safety --------------------------------------------------------

  predicate NodesTagged(ns: seq<Node>, tenantID: string) {
    forall k :: 0 <= k < |ns| ==> ns[k].tenantID == tenantID
  }

  predicate EdgesTagged(es: seq<Edge>, tenantID: string) {
    forall k :: 0 <= k < |es| ==> es[k].tenantID == tenantID
  }

  lemma {:induction false} NodesTaggedFlatMap<T>(s: seq<T>, f: (nat, T) -> seq<Node>, tenantID: string)
    requires forall i :: 0 <= i < |s| ==> NodesTagged(f(i, s[i]), tenantID)
    ensures NodesTagged(FlatMap(s, f), tenantID)
  {
    if s != [] {
      NodesTaggedFlatMap(s[..|s| - 1], f, tenantID);
    }
  }

  lemma {:induction false} EdgesTaggedFlatMap<T>(s: seq<T>, f: (nat, T) -> seq<Edge>, tenantID: string)
    requires forall i :: 0 <= i < |s| ==> EdgesTagged(f(i, s[i]), tenantID)
    ensures EdgesTagged(FlatMap(s, f), tenantID)
  {
    if s != [] {
      EdgesTaggedFlatMap(s[..|s| - 1], f, tenantID);
    }
  }

  lemma ItemNodesTagged(inp: Input)
    ensures NodesTagged(FlatMap(inp.items, ItemNodesOf(inp)), inp.tenantID)
  {
    hide FlatMap, TypedNodeID, ActionID, Evidence.IsOwnerless, Evidence.IsStale, Evidence.IsExpired,
      Evidence.CanonicalStatus, RiskStatus, OwnerLabel, OwnerNodeID;
    NodesTaggedFlatMap(inp.items, ItemNodesOf(inp), inp.tenantID);
  }

  lemma ItemEdgesTagged(inp: Input)
    ensures EdgesTagged(FlatMap(inp.items, ItemEdgesOf(inp)), inp.tenantID)
  {
    hide FlatMap, TypedNodeID, ActionID, Evidence.IsOwnerless, Evidence.IsStale, Evidence.IsExpired,
      Evidence.CanonicalStatus, EdgeStatus, OwnerNodeID;
    EdgesTaggedFlatMap(inp.items, ItemEdgesOf(inp), inp.tenantID);
  }

  lemma NodeLogTagged(inp: Input)
    ensures NodesTagged(NodeLog(inp), inp.tenantID)
  {
    hide FlatMap, TypedNodeID, SnapshotNodeID, EventNodeID, NarrativeNodeID, ExportNodeID, ReviewStatus,
      ComparisonStatus, Readiness, NextActions;
    ItemNodesTagged(inp);
    NodesTaggedFlatMap(inp.data.proofpacks, ProofpackNodesOf(inp), inp.tenantID);
    NodesTaggedFlatMap(inp.data.reviews, ReviewNodesOf(inp), inp.tenantID);
    NodesTaggedFlatMap(inp.data.events, EventNodesOf(inp), inp.tenantID);
    NodesTaggedFlatMap(inp.data.reports, ReportNodesOf(inp), inp.tenantID);
    NodesTaggedFlatMap(EXPORT_KINDS, ExportNodesOf(inp), inp.tenantID);
    NodesTaggedFlatMap(inp.narratives, NarrativeNodesOf(inp), inp.tenantID);
    NodesTaggedFlatMap(NextActions(inp), ActionNodesOf(inp), inp.tenantID);
  }

  lemma EdgeLogTagged(inp: Input)
    ensures EdgesTagged(EdgeLog(inp), inp.tenantID)
  {
    hide FlatMap, TypedNodeID, SnapshotNodeID, EventNodeID, NarrativeNodeID, ExportNodeID, EventSource,
      ComparisonStatus, NextActions, EdgeStatus, KnownIDs;
    ItemEdgesTagged(inp);
    forall i | 0 <= i < |inp.data.proofpacks|
      ensures EdgesTagged(ProofpackEdgesOf(inp)(i, inp.data.proofpacks[i]), inp.tenantID)
    {
      EdgesTaggedFlatMap(inp.data.proofpacks[i].evidenceIDs, ManifestEdgeOf(inp, inp.data.proofpacks[i]), inp.tenantID);
    }
    EdgesTaggedFlatMap(inp.data.proofpacks, ProofpackEdgesOf(inp), inp.tenantID);
    EdgesTaggedFlatMap(inp.data.reviews, ReviewEdgesOf(inp), inp.tenantID);
    EdgesTaggedFlatMap(inp.data.events, EventEdgesOf(inp), inp.tenantID);
    EdgesTaggedFlatMap(inp.data.reports, ReportEdgesOf(inp), inp.tenantID);
    EdgesTaggedFlatMap(EXPORT_KINDS, ExportEdgesOf(inp), inp.tenantID);
    EdgesTaggedFlatMap(inp.narratives, NarrativeEdgesOf(inp), inp.tenantID);
    forall i | 0 <= i < |NextActions(inp)|
      ensures EdgesTagged(ActionEdgesOf(inp)(i, NextActions(inp)[i]), inp.tenantID)
    {
      EdgesTaggedFlatMap(NextActions(inp)[i].targets, TargetEdgesOf(inp, NextActions(inp)[i]), inp.tenantID);
    }
    EdgesTaggedFlatMap(NextActions(inp), ActionEdgesOf(inp), inp.tenantID);
  }

  lemma TaggedMember(inp: Input, n: Node)
    requires n in SortedNodes(inp)
    ensures n.tenantID == inp.tenantID
  {
    hide NodeLog, StableSort, Survivors, Put, NodeLess, NodesTagged;
    var log := FillNodes(NodeLog(inp), inp.now);
    NodeLogTagged(inp);
    PutHolds(log, NodeKey);
    SortedMembers(log, NodeKey, NodeLess, n);
    assert n in log;
    var m :| 0 <= m < |log| && log[m] == n;
    assert NodeLog(inp)[m].tenantID == inp.tenantID by { TaggedAt(NodeLog(inp), inp.tenantID, m); }
  }

  lemma TaggedAt(ns: seq<Node>, tenantID: string, m: nat)
    requires NodesTagged(ns, tenantID) && m < |ns|
    ensures ns[m].tenantID == tenantID
  {
  }

  lemma TaggedEdgeMember(inp: Input, e: Edge)
    requires e in SortedEdges(inp)
    ensures e.tenantID == inp.tenantID
  {
    hide EdgeLog, StableSort, Survivors, Put, EdgeLess, EdgesTagged, Slugs.EdgeID;
    var log := FillEdges(EdgeLog(inp), inp.now);
    EdgeLogTagged(inp);
    PutHolds(log, EdgeKey);
    SortedMembers(log, EdgeKey, EdgeLess, e);
    assert e in log;
    var m :| 0 <= m < |log| && log[m] == e;
    assert EdgeLog(inp)[m].tenantID == inp.tenantID by { TaggedEdgeAt(EdgeLog(inp), inp.tenantID, m); }
  }

  lemma TaggedEdgeAt(es: seq<Edge>, tenantID: string, m: nat)
    requires EdgesTagged(es, tenantID) && m < |es|
    ensures es[m].tenantID == tenantID
  {
  }

  /** Tenant safety: every node and every edge of a graph carries the tenant it was built for. */
  lemma GraphIsTenantScoped(inp: Input, maxNodes: int, maxEdges: int)
    requires maxNodes > 0 && maxEdges > 0
    ensures NodesTagged(GraphOf(inp, maxNodes, maxEdges).nodes, inp.tenantID)
    ensures EdgesTagged(GraphOf(inp, maxNodes, maxEdges).edges, inp.tenantID)
  {
    hide SortedNodes, SortedEdges, StableSort, EdgeLess, NodeLess, SummaryOf, GraphHealth.DegradedReasons,
      CapReasons, NextActions, FirstEdges, KeptEdges;
    var g, ns, cap := GraphOf(inp, maxNodes, maxEdges), SortedNodes(inp), CapNode(inp.tenantID, inp.now);
    var kept := KeptNodes(ns, maxNodes, cap);
    SortIsPermutation(kept, NodeLess);
    SameMembers(kept, g.nodes);
    forall k | 0 <= k < |g.nodes| ensures g.nodes[k].tenantID == inp.tenantID {
      assert g.nodes[k] in kept;
      if g.nodes[k] != cap {
        assert g.nodes[k] in ns;
        TaggedMember(inp, g.nodes[k]);
      }
    }
    forall k | 0 <= k < |g.edges| ensures g.edges[k].tenantID == inp.tenantID {
      assert g.edges[k] in g.edges;
      GraphEdgeIsSorted(inp, maxNodes, maxEdges, g.edges[k]);
      TaggedEdgeMember(inp, g.edges[k]);
    }
  }
}

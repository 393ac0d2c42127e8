/** Concrete graphs that show where a promise ends. */
module GraphWitnesses {
  import opened Slugs
  import Records
  import opened Sorting
  import Keyed
  import opened GraphModel
  import GraphHealth
  import opened GraphOrder
  import GraphBuilder
  import GraphRefs
  import opened EvidenceGraph
  import opened GraphTheorems
  import opened GraphAgreement

  // ---- A dangling edge ------------------------------------------------------

  lemma {:induction false} SurvivorsLength<V>(log: seq<V>, id: V -> string)
    ensures |Keyed.Survivors(log, id)| <= |log|
  {
    if log != [] {
      SurvivorsLength(log[..|log| - 1], id);
      FilterLength(Keyed.Survivors(log[..|log| - 1], id), Keyed.OtherThan(id, id(log[|log| - 1])));
    }
  }

  lemma {:induction false} FilterLength<T>(s: seq<T>, p: T -> bool)
    ensures |Filter(s, p)| <= |s|
  {
    if s != [] {
      FilterLength(s[..|s| - 1], p);
    }
  }

  lemma SortLength<T>(s: seq<T>, less: (T, T) -> bool)
    ensures |StableSort(s, less)| == |s|
  {
    SortIsPermutation(s, less);
    SameLength(s, StableSort(s, less));
  }

  /** The caps do not fire when the builder emits no more than they allow. */
  lemma SmallIsUncut(inp: Input, maxNodes: int, maxEdges: int)
    requires |NodeLog(inp)| <= maxNodes && |EdgeLog(inp)| <= maxEdges && maxNodes > 0 && maxEdges > 0
    ensures Uncut(inp, maxNodes, maxEdges)
  {
    hide NodeLog, EdgeLog, Keyed.Survivors, StableSort, NodeLess, EdgeLess;
    FilledLength(inp);
    SurvivorsLength(GraphBuilder.FillNodes(NodeLog(inp), inp.now), NodeKey);
    SurvivorsLength(GraphBuilder.FillEdges(EdgeLog(inp), inp.now), EdgeKey);
    SortLength(Keyed.Survivors(GraphBuilder.FillNodes(NodeLog(inp), inp.now), NodeKey), NodeLess);
    SortLength(Keyed.Survivors(GraphBuilder.FillEdges(EdgeLog(inp), inp.now), EdgeKey), EdgeLess);
  }

  lemma {:induction false} FlatMapOnes<T, U>(s: seq<T>, f: (nat, T) -> seq<U>)
    requires forall i :: 0 <= i < |s| ==> |f(i, s[i])| == 1
    ensures |FlatMap(s, f)| == |s|
  {
    if s != [] {
      FlatMapOnes(s[..|s| - 1], f);
    }
  }

  /** The records of a tenant whose first operation was to generate a review report. */
  function ReportInput(t: string, now: Records.Instant, message: string, narratives: seq<Narrative>,
          formats: Formats): Input {
    var id := formats.stamp(now);
    Input(t, now, [], NO_DATA.(events := [Records.OperationalEvent(t, "review.report.generated", message, id, now)],
                                  reports := [Records.ReviewReport(t, id, now, "", "")]), narratives, formats)
  }

  /** It is as `Build` sorts it. */
  lemma ReportIsSorted(t: string, now: Records.Instant, message: string, narratives: seq<Narrative>, formats: Formats)
    ensures var inp := ReportInput(t, now, message, narratives, formats);
            inp == InputOf(t, now, [], inp.data, narratives, formats)
  {
    hide StableSort;
    var d := ReportInput(t, now, message, narratives, formats).data;
    SortFixesSorted(d.proofpacks, PackedLater);
    SortFixesSorted(d.reviews, ReviewedLater);
    SortFixesSorted(d.events, LoggedLater);
    SortFixesSorted(d.reports, ReportedLater);
  }

  lemma TenantActionsShape(tenantID: string, d: TenantData)
    ensures |TenantActions(tenantID, d)| <= 5
    ensures forall i :: 0 <= i < |TenantActions(tenantID, d)| ==> |TenantActions(tenantID, d)[i].targets| == 1
  {
    hide TenantNodeID, PilotNodeID, ActionID;
  }

  lemma ActionsWithoutItems(inp: Input)
    requires inp.items == []
    ensures |NextActions(inp)| <= 5 && forall i :: 0 <= i < |NextActions(inp)| ==> |NextActions(inp)[i].targets| == 1
  {
    hide StableSort, ActionLess, TenantActions;
    var raw := RawActions(inp);
    assert raw == TenantActions(inp.tenantID, inp.data);
    TenantActionsShape(inp.tenantID, inp.data);
    SortIsPermutation(raw, ActionLess);
    SortLength(raw, ActionLess);
    SameMembers(raw, NextActions(inp));
    forall i | 0 <= i < |NextActions(inp)| ensures |NextActions(inp)[i].targets| == 1 {
      assert NextActions(inp)[i] in raw;
    }
  }

  lemma ReportLogs(t: string, now: Records.Instant, message: string, narratives: seq<Narrative>, formats: Formats)
    ensures var inp := ReportInput(t, now, message, narratives, formats);
            |NodeLog(inp)| <= 13 + |narratives| && |EdgeLog(inp)| <= 10 + |narratives|
  {
    hide NextActions, FlatMap, MakeNode, MakeEdge, SnapshotNodeID, EventNodeID, ReportNodeID, NarrativeNodeID,
      ExportNodeID, PilotNodeID, TenantNodeID, EventSource, ActionNodeID, EdgeStatus, ReviewStatus, ItemNodes,
      ItemEdges, ActionEdges;
    var inp := ReportInput(t, now, message, narratives, formats);
    var acts := NextActions(inp);
    ActionsWithoutItems(inp);
    FlatMapOnes(inp.items, ItemNodesOf(inp));
    FlatMapOnes(inp.items, ItemEdgesOf(inp));
    FlatMapOnes(inp.data.proofpacks, ProofpackNodesOf(inp));
    FlatMapOnes(inp.data.proofpacks, ProofpackEdgesOf(inp));
    FlatMapOnes(inp.data.reviews, ReviewNodesOf(inp));
    FlatMapOnes(inp.data.reviews, ReviewEdgesOf(inp));
    FlatMapOnes(inp.data.events, EventNodesOf(inp));
    FlatMapOnes(inp.data.events, EventEdgesOf(inp));
    FlatMapOnes(inp.data.reports, ReportNodesOf(inp));
    FlatMapOnes(inp.data.reports, ReportEdgesOf(inp));
    FlatMapOnes(EXPORT_KINDS, ExportNodesOf(inp));
    FlatMapOnes(EXPORT_KINDS, ExportEdgesOf(inp));
    FlatMapOnes(narratives, NarrativeNodesOf(inp));
    FlatMapOnes(narratives, NarrativeEdgesOf(inp));
    FlatMapOnes(acts, ActionNodesOf(inp));
    forall i | 0 <= i < |acts| ensures |ActionEdgesOf(inp)(i, acts[i])| == 1 {
      OneTargetEdge(inp, acts[i]);
    }
    FlatMapOnes(acts, ActionEdgesOf(inp));
  }

  lemma OneTargetEdge(inp: Input, a: Action)
    requires |a.targets| == 1
    ensures |ActionEdges(inp, a)| == 1
  {
    hide FlatMap;
    FlatMapOnes(a.targets, TargetEdgesOf(inp, a));
  }

  /** The graph built right after the first review report has an edge from a node that does not exist: the event
      about the report names the report, and event sources are taken for evidence. */
  lemma ReportEventDangles(t: string, now: Records.Instant, message: string, narratives: seq<Narrative>,
          formats: Formats)
    requires GraphRefs.StampText(formats.stamp(now)) && |narratives| <= 100
    ensures var inp := InputOf(t, now, [], ReportInput(t, now, message, narratives, formats).data, narratives, formats);
            Dangles(GraphOf(inp, DEFAULT_MAX_NODES, DEFAULT_MAX_EDGES))
  {
    hide NodeLog, EdgeLog, GraphOf, SortedNodes, SortedEdges, Slug, InputOf;
    var inp := ReportInput(t, now, message, narratives, formats);
    ReportIsSorted(t, now, message, narratives, formats);
    ReportLogs(t, now, message, narratives, formats);
    SmallIsUncut(inp, DEFAULT_MAX_NODES, DEFAULT_MAX_EDGES);
    assert NamesUnlisted(inp, inp.data.events[0]);
    GraphDanglesIff(inp, DEFAULT_MAX_NODES, DEFAULT_MAX_EDGES);
  }

  // ---- Fewer gap edges than gaps --------------------------------------------

  lemma SameSlugs()
    ensures Slug("a-b") == Slug("a_b")
  {
    hide RunsOf, Slug;
    assert "a-b" == "a" + ['-'] + "b" && "a_b" == "a" + ['_'] + "b";
    GraphRefs.RunsAround("a", '-', "b");
    GraphRefs.RunsAround("a", '_', "b");
    SlugCollidesIffSameWords("a-b", "a_b");
  }

  /** Two items with one gap whose identifiers differ only in `-` and `_` are two for the summary and for the actions,
      and one for the edges. */
  lemma GapEdgesMerge(inp: Input, gap: Gap)
    requires |inp.items| == 2 && inp.items[0].id == "a-b" && inp.items[1].id == "a_b"
    requires HasGap(gap, inp.now, inp.items[0]) && HasGap(gap, inp.now, inp.items[1]) && GraphRefs.StampsAreText(inp)
    ensures Count(NextActions(inp), GraphHealth.OfType(GapActionType(gap))) == 2
    ensures Count(SortedEdges(inp), EdgeOfType(GapEdgeType(gap))) < 2
  {
    hide NextActions, SortedEdges, HasGap, Slug, GapActionType, GapEdgeType, GraphHealth.OfType, EdgeOfType,
      GraphRefs.StampsAreText, GraphHealth.StatsOf, GapStat;
    SameSlugs();
    ActionsCountGaps(inp, gap);
    EdgesCountGaps(inp, gap);
    CountBoth(inp.items, GapTest(gap, inp.now));
  }

  lemma CountBoth<T>(s: seq<T>, p: T -> bool)
    requires |s| == 2 && p(s[0]) && p(s[1])
    ensures Count(s, p) == 2
  {
    assert s == [s[0]] + [s[1]];
    CountSnoc([s[0]], s[1], p);
    CountSnoc([], s[0], p);
    assert [] + [s[0]] == [s[0]];
  }
}

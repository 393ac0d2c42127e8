/** `Build`: the whole pipeline, and what holds of every graph it returns. */
module EvidenceGraph {
  import Slugs
  import opened Text
  import opened Records
  import References
  import opened Sorting
  import opened Keyed
  import opened GraphModel
  import opened GraphHealth
  import opened GraphOrder
  import opened GraphBuilder

  // ---- Summary --------------------------------------------------------------

  datatype Summary = Summary(
    totalEvidence: nat, totalOwners: nat, ownerlessEvidence: nat, expiredEvidence: nat, staleEvidence: nat,
    proofpackCount: nat, reviewCount: nat, latestReviewAt: Option<Instant>, comparisonState: string,
    pilotReadinessState: string, graphHealthScore: int, topRisks: seq<string>, topNextActions: seq<string>)

  function RiskRefsOf(): (nat, Item) -> seq<string> { (i: nat, it: Item) => it.riskRefs }

  function Itself(s: string): string { s }

  function RiskFlags(expired: nat, ownerless: nat, stale: nat): seq<string> {
    (if expired > 0 then ["expired evidence"] else [])
    + (if ownerless > 0 then ["ownerless evidence"] else [])
    + (if stale > 0 then ["stale evidence"] else [])
  }

  /** The five alphabetically first of the distinct risk references and the gap flags. */
  function TopRisks(items: seq<Item>, expired: nat, ownerless: nat, stale: nat): seq<string> {
    AtMost(StableSort(Survivors(FlatMap(items, RiskRefsOf()), Itself) + RiskFlags(expired, ownerless, stale), Less), 5)
  }

  function Titles(actions: seq<Action>): seq<string> {
    seq(|actions|, i requires 0 <= i < |actions| => actions[i].title)
  }

  function ComparisonState(d: TenantData): string {
    if |d.reviews| >= 2 then "active" else "not_comparable"
  }

  function ReadinessState(d: TenantData): string {
    if |d.reviews| >= 4 && |d.proofpacks| > 0 then "ready_for_export"
    else if |d.reviews| >= 2 then "comparison_ready"
    else "not_ready"
  }

  function SummaryOf(inp: Input): Summary {
    var stats := StatsOf(inp.now, inp.items, inp.formats.fold);
    Summary(
      |inp.items|, |stats.owners|, stats.ownerless, stats.expired, stats.stale, |inp.data.proofpacks|,
      |inp.data.reviews|,
      if |inp.data.reviews| > 0 then Some(inp.data.reviews[0].lastReviewedAt) else None,
      ComparisonState(inp.data), ReadinessState(inp.data), Health(inp.now, inp.items, inp.data),
      TopRisks(inp.items, stats.expired, stats.ownerless, stats.stale), AtMost(Titles(NextActions(inp)), 5))
  }

  lemma TextOrdering()
    ensures Ordering(Less)
  {
    hide Less;
    forall a, b ensures !(Less(a, b) && Less(b, a)) { StrictText(a, b, a); }
    forall a, b, c | !Less(b, a) && !Less(c, b) ensures !Less(c, a) {
      StrictText(c, a, b);
      StrictText(a, b, c);
      StrictText(b, c, a);
    }
  }

  lemma TextSeparates(s: seq<string>)
    ensures Separates(s, Less)
  {
    hide Less;
    forall i, j | 0 <= i < |s| && 0 <= j < |s| && s[i] != s[j] ensures Less(s[i], s[j]) || Less(s[j], s[i]) {
      StrictText(s[i], s[j], s[i]);
    }
  }

  /** The distinct risk references are the keys of the set the loop fills. */
  lemma RisksAreLogged(now: Instant, items: seq<Item>, fold: References.Fold)
    ensures StatsOf(now, items, fold).risks == Put(FlatMap(items, RiskRefsOf()), Itself).Keys
  {
    hide FlatMap, Put;
    var log := FlatMap(items, RiskRefsOf());
    PutHolds(log, Itself);
    FlatMapMembers(items, RiskRefsOf());
    forall r
      ensures r in StatsOf(now, items, fold).risks <==> r in Ids(log, Itself)
    {
      if r in Ids(log, Itself) {
        var k :| 0 <= k < |log| && Itself(log[k]) == r;
        assert log[k] in log;
        var i :| 0 <= i < |items| && r in RiskRefsOf()(i, items[i]);
        var m :| 0 <= m < |items[i].riskRefs| && items[i].riskRefs[m] == r;
      }
      if r in StatsOf(now, items, fold).risks {
        var i, m :| 0 <= i < |items| && 0 <= m < |items[i].riskRefs| && items[i].riskRefs[m] == r;
        assert r in RiskRefsOf()(i, items[i]);
        assert r in log;
        var k :| 0 <= k < |log| && log[k] == r;
        assert Itself(log[k]) == r;
      }
    }
  }

  method DeriveTopRisks(items: seq<Item>, stats: Stats, ghost now: Instant, ghost fold: References.Fold)
          returns (top: seq<string>)
    requires stats == StatsOf(now, items, fold)
    ensures top == TopRisks(items, stats.expired, stats.ownerless, stats.stale)
  {
    hide FlatMap, Put, Survivors, Less, StableSort, StatsOf;
    ghost var log := FlatMap(items, RiskRefsOf());
    RisksAreLogged(now, items, fold);
    PutHolds(log, Itself);
    var all: map<string, string> := map r | r in stats.risks :: r;
    assert all == Put(log, Itself);
    var risks := Range(all, Itself);
    SurvivorsEnumerate(log, Itself);
    EnumerationsAgree(risks, Survivors(log, Itself), all, Itself);
    var flags := [];
    if stats.expired > 0 { flags := flags + ["expired evidence"]; }
    if stats.ownerless > 0 { flags := flags + ["ownerless evidence"]; }
    if stats.stale > 0 { flags := flags + ["stale evidence"]; }
    assert flags == RiskFlags(stats.expired, stats.ownerless, stats.stale);
    top := StableSort(risks + flags, Less);
    SameSort(risks + flags, Survivors(log, Itself) + flags);
    if |top| > 5 {
      top := top[..5];
    }
  }

  /** Strings sort the same way whatever order they came in. */
  lemma SameSort(s: seq<string>, t: seq<string>)
    requires multiset(s) == multiset(t)
    ensures StableSort(s, Less) == StableSort(t, Less)
  {
    hide Less;
    TextOrdering();
    SortIsPermutation(s, Less);
    SortIsPermutation(t, Less);
    SortIsSorted(s, Less);
    SortIsSorted(t, Less);
    TextSeparates(StableSort(s, Less));
    SortedIsUnique(StableSort(s, Less), StableSort(t, Less), Less);
  }

  method Summarize(inp: Input, actions: seq<Action>) returns (s: Summary, stats: Stats)
    requires actions == NextActions(inp)
    ensures s == SummaryOf(inp) && stats == StatsOf(inp.now, inp.items, inp.formats.fold)
  {
    hide NextActions, TopRisks, Health, StatsOf, ComparisonState, ReadinessState;
    stats := SummarizeEvidenceInfo(inp.now, inp.items, inp.formats.fold);
    var topRisks := DeriveTopRisks(inp.items, stats, inp.now, inp.formats.fold);
    var latest := if |inp.data.reviews| > 0 then Some(inp.data.reviews[0].lastReviewedAt) else None;
    var topActions := [];
    for i := 0 to |actions|
      invariant topActions == AtMost(Titles(actions), 5)[..if i < 5 then i else |AtMost(Titles(actions), 5)|]
    {
      if i >= 5 {
        break;
      }
      topActions := topActions + [actions[i].title];
    }
    assert topActions == AtMost(Titles(actions), 5);
    var health := GraphHealthLoop(inp.now, inp.items, inp.data);
    s := Summary(
      |inp.items|, |stats.owners|, stats.ownerless, stats.expired, stats.stale, |inp.data.proofpacks|,
      |inp.data.reviews|,
      latest, ComparisonState(inp.data), ReadinessState(inp.data), health, topRisks, topActions);
  }

  // ---- The graph ------------------------------------------------------------

  datatype Graph = Graph(
    tenantID: string, generatedAt: Instant, nodes: seq<Node>, edges: seq<Edge>, summary: Summary,
    reasons: seq<Reason>, actions: seq<Action>)

  datatype BuildResult = TenantRequired | BuildFailed(error: string) | Built(graph: Graph)

  /** The outcome of one of the two separate store reads. */
  datatype ReadResult<+T> = ReadFailed(error: string) | Done(value: T)

  const DEFAULT_MAX_NODES := 500
  const DEFAULT_MAX_EDGES := 1000

  function Limit(max: int, default: int): int {
    if max <= 0 then default else max
  }

  function SortedNodes(inp: Input): seq<Node> {
    StableSort(Survivors(FillNodes(NodeLog(inp), inp.now), NodeKey), NodeLess)
  }

  function SortedEdges(inp: Input): seq<Edge> {
    StableSort(Survivors(FillEdges(EdgeLog(inp), inp.now), EdgeKey), EdgeLess)
  }

  function GraphOf(inp: Input, maxNodes: int, maxEdges: int): Graph {
    var ns, es := SortedNodes(inp), SortedEdges(inp);
    Graph(
      inp.tenantID, inp.now,
      StableSort(KeptNodes(ns, maxNodes, CapNode(inp.tenantID, inp.now)), NodeLess),
      StableSort(FirstEdges(KeptEdges(ns, es, maxNodes), maxEdges), EdgeLess),
      SummaryOf(inp),
      DegradedReasons(inp.now, inp.items, inp.data) + CapReasons(ns, es, maxNodes, maxEdges),
      NextActions(inp))
  }

  /** What `Build` is given: the items as listed and the tenant data as loaded. */
  function InputOf(tenantID: string, now: Instant, items: seq<Item>, loaded: TenantData, narratives: seq<Narrative>,
          formats: Formats): Input {
    Input(tenantID, now, items, SortTenantData(loaded), narratives, formats)
  }

  lemma TraversedNodes(s: seq<Node>, log: seq<Node>)
    requires Enumerates(s, Put(log, NodeKey), NodeKey)
    ensures StableSort(s, NodeLess) == StableSort(Survivors(log, NodeKey), NodeLess)
  {
    hide NodeLess, Put, Survivors, StableSort;
    forall i, j | 0 <= i < j < |s| ensures s[i].id != s[j].id {
      assert s[i] in s && s[j] in s;
      assert NodeKey(s[i]) == s[i].id && NodeKey(s[j]) == s[j].id;
    }
    NodesSeparate(s);
    NodeOrdering();
    TraversalDoesNotMatter(s, log, NodeKey, NodeLess);
  }

  /** The stored edges carry the identifier computed from their triple. */
  predicate IdsAreComputed(es: seq<Edge>) {
    forall k :: 0 <= k < |es| ==> es[k].id == Slugs.EdgeID(es[k].typ, es[k].source, es[k].target)
  }

  lemma TraversedEdges(s: seq<Edge>, log: seq<Edge>)
    requires Enumerates(s, Put(log, EdgeKey), EdgeKey) && IdsAreComputed(log)
    ensures StableSort(s, EdgeLess) == StableSort(Survivors(log, EdgeKey), EdgeLess)
  {
    hide EdgeLess, Put, Survivors, StableSort, Slugs.EdgeID;
    EnumeratedTriples(s, log);
    EdgesSeparate(s);
    EdgeOrdering();
    TraversalDoesNotMatter(s, log, EdgeKey, EdgeLess);
  }

  lemma EnumeratedTriples(s: seq<Edge>, log: seq<Edge>)
    requires Enumerates(s, Put(log, EdgeKey), EdgeKey) && IdsAreComputed(log)
    ensures DistinctTriples(s) && forall e :: e in s ==> e in log
  {
    hide Put, Slugs.EdgeID;
    PutHolds(log, EdgeKey);
    forall e | e in s ensures e in log && e.id == Slugs.EdgeID(e.typ, e.source, e.target) {
      assert Put(log, EdgeKey)[EdgeKey(e)] == e;
      assert e in log;
      var k :| 0 <= k < |log| && log[k] == e;
    }
    forall i, j | 0 <= i < j < |s| ensures !SameTriple(s[i], s[j]) {
      assert s[i] in s && s[j] in s;
      assert EdgeKey(s[i]) == s[i].id && EdgeKey(s[j]) == s[j].id;
    }
  }

  lemma FilledIDs(log: seq<Edge>, now: Instant)
    ensures IdsAreComputed(FillEdges(log, now))
  {
  }

  lemma PutIsKeyed<V>(log: seq<V>, id: V -> string)
    ensures forall k :: k in Put(log, id) ==> id(Put(log, id)[k]) == k
  {
  }

  /** `Build`: the errors in the order in which they are found, and otherwise the graph. Without an evidence service
      no items are listed. */
  method Build(tenantID: string, now: Instant, listed: Option<ReadResult<seq<Item>>>, loaded: ReadResult<TenantData>,
               narratives: seq<Narrative>, formats: Formats, maxNodes: int, maxEdges: int)
    returns (r: BuildResult)
    ensures r == if TrimSpace(tenantID) == "" then TenantRequired
                 else if listed.Some? && listed.value.ReadFailed? then BuildFailed(listed.value.error)
                 else if loaded.ReadFailed? then BuildFailed(loaded.error)
                 else
                   var items := if listed.Some? then listed.value.value else [];
                   Built(GraphOf(InputOf(tenantID, now, items, loaded.value, narratives, formats),
                                 if maxNodes <= 0 then 500 else maxNodes, if maxEdges <= 0 then 1000 else maxEdges))
  {
    hide TrimSpace, GraphOf, InputOf;
    if TrimSpace(tenantID) == "" {
      return TenantRequired;
    }
    var items: seq<Item> := [];
    if listed.Some? {
      if listed.value.ReadFailed? {
        return BuildFailed(listed.value.error);
      }
      items := listed.value.value;
    }
    if loaded.ReadFailed? {
      return BuildFailed(loaded.error);
    }
    var g := BuildGraph(tenantID, now, items, loaded.value, narratives, formats, Limit(maxNodes, DEFAULT_MAX_NODES),
      Limit(maxEdges, DEFAULT_MAX_EDGES));
    r := Built(g);
  }

  /** Main method: whatever order the two maps are ranged over, the result is this one graph. */
  method BuildGraph(tenantID: string, now: Instant, items: seq<Item>, loaded: TenantData, narratives: seq<Narrative>,
          formats: Formats, maxNodes: int, maxEdges: int)
    returns (g: Graph)
    ensures g == GraphOf(InputOf(tenantID, now, items, loaded, narratives, formats), maxNodes, maxEdges)
  {
    hide NodeLess, EdgeLess, Put, Survivors, StableSort, NodeLog, EdgeLog, NextActions, SummaryOf, FillNodes,
      FillEdges, DegradedReasons, KeptNodes, KeptEdges, FirstEdges, CapReasons, SortTenantData, StatsOf;
    var inp := Input(tenantID, now, items, SortTenantData(loaded), narratives, formats);
    var w := new Work(now);
    var actions := FillWork(w, inp);
    PutIsKeyed(FillNodes(w.nodeLog, now), NodeKey);
    PutIsKeyed(FillEdges(w.edgeLog, now), EdgeKey);
    var ns := Range(w.nodes, NodeKey);
    var es := Range(w.edges, EdgeKey);
    var summary, stats := Summarize(inp, actions);
    var reasons := DegradedReasonsLoop(items, inp.data, stats, now, formats.fold);
    TraversedNodes(ns, FillNodes(NodeLog(inp), now));
    FilledIDs(EdgeLog(inp), now);
    TraversedEdges(es, FillEdges(EdgeLog(inp), now));
    ns := StableSort(ns, NodeLess);
    es := StableSort(es, EdgeLess);
    var edges := new Edge[|es|](i requires 0 <= i < |es| => es[i]);
    assert edges[..] == es;
    var nodes, kept, capped := ApplyCaps(ns, edges, maxNodes, maxEdges, tenantID, now);
    ActionsStaySorted(inp);
    g := Graph(tenantID, now, nodes, kept, summary, reasons + capped, SortActions(actions));
  }

  /** `sortGraph` sorts the actions twice more; nothing moves. */
  lemma ActionsStaySorted(inp: Input)
    ensures SortActions(NextActions(inp)) == NextActions(inp)
  {
    hide ActionLess, RawActions;
    ActionOrdering();
    SortIsSorted(RawActions(inp), ActionLess);
    SortFixesSorted(NextActions(inp), ActionLess);
  }
}

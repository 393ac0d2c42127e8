/** Five passes look at the same items independently: the statistics, the gap edges, the next actions, the
    degraded reasons and the health score. They agree. */
module GraphAgreement {
  import opened Slugs
  import Text
  import opened Records
  import References
  import opened Evidence
  import opened Sorting
  import opened GraphModel
  import opened GraphHealth
  import opened GraphOrder
  import opened GraphSources
  import GraphClosure
  import GraphRefs
  import opened EvidenceGraph
  import GraphTheorems

  // ---- Gaps -----------------------------------------------------------------

  datatype Gap = Expired | Ownerless | Stale

  predicate HasGap(gap: Gap, now: Instant, it: Item) {
    match gap
    case Expired => IsExpired(it)
    case Ownerless => IsOwnerless(it)
    case Stale => IsStale(it, now)
  }

  function GapTest(gap: Gap, now: Instant): Item -> bool { (it: Item) => HasGap(gap, now, it) }

  function GapEdgeType(gap: Gap): string {
    match gap
    case Expired => "EXPIRED_BECAUSE"
    case Ownerless => "OWNERLESS_BECAUSE"
    case Stale => "STALE_BECAUSE"
  }

  function GapActionType(gap: Gap): string {
    match gap
    case Expired => "replace_expired_evidence"
    case Ownerless => "assign_owner"
    case Stale => "refresh_stale_evidence"
  }

  function GapStat(gap: Gap, stats: Stats): nat {
    match gap
    case Expired => stats.expired
    case Ownerless => stats.ownerless
    case Stale => stats.stale
  }

  lemma {:induction false} CountSame<T>(s: seq<T>, p: T -> bool, q: T -> bool)
    requires forall i :: 0 <= i < |s| ==> p(s[i]) == q(s[i])
    ensures Count(s, p) == Count(s, q)
  {
    if s != [] {
      CountSame(s[..|s| - 1], p, q);
    }
  }

  /** The statistics count the gaps. */
  lemma StatsCountGaps(gap: Gap, now: Instant, items: seq<Item>, fold: References.Fold)
    ensures GapStat(gap, StatsOf(now, items, fold)) == Count(items, GapTest(gap, now))
  {
  }

  // ---- Actions --------------------------------------------------------------

  lemma ItemActionsOfGap(gap: Gap, now: Instant, it: Item)
    ensures Count(ItemActions(now, it), OfType(GapActionType(gap))) == One(HasGap(gap, now, it))
  {
    hide ItemActions, IsOwnerless, IsStale, IsExpired, Count, LacksControls, LacksVendors, OfType;
    ItemActionsCount(now, it, GapActionType(gap));
  }

  lemma {:induction false} CollectedOfGap(gap: Gap, now: Instant, items: seq<Item>)
    ensures Count(FlatMap(items, ItemActionsOf(now)), OfType(GapActionType(gap))) == Count(items, GapTest(gap, now))
  {
    hide ItemActions, GapActionType, HasGap, OfType;
    if items != [] {
      var n := |items| - 1;
      CollectedOfGap(gap, now, items[..n]);
      CountConcat(FlatMap(items[..n], ItemActionsOf(now)), ItemActions(now, items[n]), OfType(GapActionType(gap)));
      ItemActionsOfGap(gap, now, items[n]);
    }
  }

  lemma {:induction false} CountNone<T>(s: seq<T>, p: T -> bool)
    requires forall i :: 0 <= i < |s| ==> !p(s[i])
    ensures Count(s, p) == 0
  {
    if s != [] {
      CountNone(s[..|s| - 1], p);
    }
  }

  lemma TenantActionsHaveNoGap(gap: Gap, tenantID: string, d: TenantData)
    ensures Count(TenantActions(tenantID, d), OfType(GapActionType(gap))) == 0
  {
    hide TenantNodeID, PilotNodeID, ActionID, Count;
    forall i | 0 <= i < |TenantActions(tenantID, d)|
      ensures TenantActions(tenantID, d)[i].typ != GapActionType(gap)
    {
      TenantActionTypes(tenantID, d, i);
      GapTypesStart(gap);
    }
    CountNone(TenantActions(tenantID, d), OfType(GapActionType(gap)));
  }

  lemma TenantActionTypes(tenantID: string, d: TenantData, i: nat)
    requires i < |TenantActions(tenantID, d)|
    ensures |TenantActions(tenantID, d)[i].typ| > 1 && TenantActions(tenantID, d)[i].typ[0] in {'c', 'g', 'e'}
  {
    hide TenantNodeID, PilotNodeID, ActionID;
  }

  lemma GapTypesStart(gap: Gap)
    ensures |GapActionType(gap)| > 1 && GapActionType(gap)[0] in {'r', 'a'}
  {
  }

  /** The listed actions of a gap's type are as many as the items with that gap. */
  lemma ActionsCountGaps(inp: Input, gap: Gap)
    ensures Count(NextActions(inp), OfType(GapActionType(gap))) == Count(inp.items, GapTest(gap, inp.now))
  {
    hide ItemActions, TenantActions, GapActionType, HasGap, OfType, Count, FlatMap, StableSort, ActionLess;
    var p := OfType(GapActionType(gap));
    var a, b := FlatMap(inp.items, ItemActionsOf(inp.now)), TenantActions(inp.tenantID, inp.data);
    SortIsPermutation(RawActions(inp), ActionLess);
    CountUpToOrder(NextActions(inp), RawActions(inp), p);
    CountConcat(a, b, p);
    CollectedOfGap(gap, inp.now, inp.items);
    TenantActionsHaveNoGap(gap, inp.tenantID, inp.data);
  }

  // ---- Edges ----------------------------------------------------------------

  /** The values of `f` on the members that are counted. */
  function Image<T, U>(s: seq<T>, p: T -> bool, f: T -> U): set<U> {
    if s == [] then {}
    else Image(s[..|s| - 1], p, f) + if p(s[|s| - 1]) then {f(s[|s| - 1])} else {}
  }

  ghost predicate IsValue<T, U>(s: seq<T>, p: T -> bool, f: T -> U, u: U) {
    exists k :: 0 <= k < |s| && p(s[k]) && f(s[k]) == u
  }

  lemma {:induction false} ImageMembers<T, U>(s: seq<T>, p: T -> bool, f: T -> U, u: U)
    ensures u in Image(s, p, f) <==> IsValue(s, p, f, u)
  {
    if s != [] {
      var t := s[..|s| - 1];
      ImageMembers(t, p, f, u);
      if IsValue(t, p, f, u) {
        var k :| 0 <= k < |t| && p(t[k]) && f(t[k]) == u;
        assert p(s[k]) && f(s[k]) == u;
      }
    }
  }

  /** `f` takes different values on any two members that are counted. */
  ghost predicate Separated<T, U>(s: seq<T>, p: T -> bool, f: T -> U) {
    forall i, j :: 0 <= i < j < |s| && p(s[i]) && p(s[j]) ==> f(s[i]) != f(s[j])
  }

  /** The image is as large as the count exactly when `f` separates what is counted. */
  lemma {:induction false} CountIsImage<T, U>(s: seq<T>, p: T -> bool, f: T -> U)
    ensures |Image(s, p, f)| <= Count(s, p)
    ensures |Image(s, p, f)| == Count(s, p) <==> Separated(s, p, f)
  {
    if s != [] {
      var t, x := s[..|s| - 1], s[|s| - 1];
      CountIsImage(t, p, f);
      ImageMembers(t, p, f, f(x));
      if Separated(s, p, f) {
        assert Separated(t, p, f);
      }
      if p(x) && f(x) in Image(t, p, f) {
        var k :| 0 <= k < |t| && p(t[k]) && f(t[k]) == f(x);
        assert f(s[k]) == f(s[|t|]);
      }
    }
  }

  function EdgeOfType(typ: string): Edge -> bool { (e: Edge) => e.typ == typ }

  function GapTriple(gap: Gap): Item -> Triple {
    (it: Item) => Triple(GapEdgeType(gap), EvidenceNodeID(it.id), ActionNodeID(ActionID(GapActionType(gap), it.id)))
  }

  /** No two items with the gap have identifiers with the same slug. */
  ghost predicate DistinctSlugs(inp: Input, gap: Gap) {
    var its := inp.items;
    forall i, j :: 0 <= i < j < |its| && HasGap(gap, inp.now, its[i]) && HasGap(gap, inp.now, its[j]) ==>
      Slug(its[i].id) != Slug(its[j].id)
  }

  /** Only the gap itself justifies an edge of its type. */
  lemma ItemGapOnly(now: Instant, it: Item, gap: Gap, t: Triple)
    requires t.typ == GapEdgeType(gap)
    ensures FromItem(now, it, t) <==> HasGap(gap, now, it) && t == GapTriple(gap)(it)
  {
    hide EvidenceNodeID, TypedNodeID, ActionNodeID, ActionID, OwnerNodeID, IsOwnerless, IsStale, IsExpired;
    GapLength(gap);
  }

  lemma GapLength(gap: Gap)
    ensures GapEdgeType(gap)[1] == match gap { case Expired => 'X' case Ownerless => 'W' case Stale => 'T' }
    ensures |GapEdgeType(gap)| == match gap { case Expired => 15 case Ownerless => 17 case Stale => 13 }
  {
  }

  lemma OtherTypesDiffer(inp: Input, gap: Gap, t: Triple)
    requires t.typ == GapEdgeType(gap)
    ensures forall i :: 0 <= i < |inp.data.proofpacks| ==> !FromManifest(inp, inp.data.proofpacks[i], t)
    ensures forall i :: 0 <= i < |inp.data.reviews| ==> !FromReview(inp, i, inp.data.reviews[i], t)
    ensures forall i :: 0 <= i < |inp.data.events| ==> !FromEvent(inp, i, inp.data.events[i], t)
    ensures forall i :: 0 <= i < |inp.data.reports| ==> !FromReport(inp, inp.data.reports[i], t)
    ensures !FromComparison(inp, t)
    ensures forall k :: !FromExport(inp, k, t)
    ensures forall i :: 0 <= i < |inp.narratives| ==> !FromNarrative(inp, i, inp.narratives[i], t)
    ensures forall i :: 0 <= i < |inp.items| ==> !FromItemNeed(inp.now, inp.items[i], t)
    ensures !FromTenantNeed(inp, t)
  {
  }

  lemma GapJustified(inp: Input, gap: Gap, t: Triple)
    requires t.typ == GapEdgeType(gap)
    ensures Justified(inp, t) <==> t in Image(inp.items, GapTest(gap, inp.now), GapTriple(gap))
  {
    hide FromItem, FromManifest, FromReview, FromEvent, FromReport, FromComparison, FromExport, FromNarrative,
      FromItemNeed, FromTenantNeed, GapTriple, HasGap, GapEdgeType;
    OtherTypesDiffer(inp, gap, t);
    ImageMembers(inp.items, GapTest(gap, inp.now), GapTriple(gap), t);
    forall i | 0 <= i < |inp.items|
      ensures FromItem(inp.now, inp.items[i], t) <==>
              HasGap(gap, inp.now, inp.items[i]) && t == GapTriple(gap)(inp.items[i])
    {
      ItemGapOnly(inp.now, inp.items[i], gap, t);
    }
  }

  lemma GapTriplesDiffer(gap: Gap, a: Item, b: Item)
    ensures GapTriple(gap)(a) == GapTriple(gap)(b) <==> Slug(a.id) == Slug(b.id)
  {
    hide Slug, ActionNodeID, TypedNodeID, GapEdgeType, GapActionType;
    GraphClosure.SameTypedID("evidence", a.id, b.id);
  }

  /** The gap edges are as many as the items with that gap exactly when those items' slugs are distinct;
      otherwise edges merge and there are fewer. */
  lemma EdgesCountGaps(inp: Input, gap: Gap)
    requires GraphRefs.StampsAreText(inp)
    ensures var edges, items :=
              Count(SortedEdges(inp), EdgeOfType(GapEdgeType(gap))), Count(inp.items, GapTest(gap, inp.now));
            edges <= items && (edges == items <==> DistinctSlugs(inp, gap))
  {
    hide Slug, Justified, SortedEdges, HasGap, GapTriple, GapEdgeType, GraphRefs.StampsAreText, Count, NodeLess,
      EdgeLess, SortedNodes;
    var es, typ := SortedEdges(inp), GapEdgeType(gap);
    GraphTheorems.SortedListsAreUnique(inp);
    forall i, j | 0 <= i < j < |es| ensures TripleOf(es[i]) != TripleOf(es[j]) {
      assert !SameTriple(es[i], es[j]);
    }
    CountIsImage(es, EdgeOfType(typ), TripleOf);
    forall i, j | 0 <= i < j < |inp.items|
      ensures GapTriple(gap)(inp.items[i]) == GapTriple(gap)(inp.items[j]) <==>
              Slug(inp.items[i].id) == Slug(inp.items[j].id)
    {
      GapTriplesDiffer(gap, inp.items[i], inp.items[j]);
    }
    CountIsImage(inp.items, GapTest(gap, inp.now), GapTriple(gap));
    forall t
      ensures t in Image(es, EdgeOfType(typ), TripleOf) <==>
              t in Image(inp.items, GapTest(gap, inp.now), GapTriple(gap))
    {
      SameGapTriples(inp, gap, t);
    }
    assert Image(es, EdgeOfType(typ), TripleOf) == Image(inp.items, GapTest(gap, inp.now), GapTriple(gap));
  }

  lemma SameGapTriples(inp: Input, gap: Gap, t: Triple)
    requires GraphRefs.StampsAreText(inp)
    ensures t in Image(SortedEdges(inp), EdgeOfType(GapEdgeType(gap)), TripleOf) <==>
            t in Image(inp.items, GapTest(gap, inp.now), GapTriple(gap))
  {
    hide Slug, Justified, SortedEdges, HasGap, GapEdgeType, GraphRefs.StampsAreText, EvidenceNodeID, ActionNodeID,
      ActionID, GapActionType, EdgeLog, EdgeID, Emits;
    var es, typ := SortedEdges(inp), GapEdgeType(gap);
    ImageMembers(es, EdgeOfType(typ), TripleOf, t);
    ImageMembers(inp.items, GapTest(gap, inp.now), GapTriple(gap), t);
    if t in Image(es, EdgeOfType(typ), TripleOf) {
      var k :| 0 <= k < |es| && es[k].typ == typ && TripleOf(es[k]) == t;
      GraphTheorems.SortedEdgeIsEmitted(inp, es[k]);
      EmittedIffJustified(inp, t);
      GapJustified(inp, gap, t);
    }
    if t in Image(inp.items, GapTest(gap, inp.now), GapTriple(gap)) {
      GapJustified(inp, gap, t);
      var e := GraphTheorems.JustifiedEdgeIsSorted(inp, t);
      var k :| 0 <= k < |es| && es[k] == e;
    }
  }

  /** Main result: the statistics, the actions and, exactly for distinct slugs, the edges of each gap agree. */
  lemma PassesCountAlike(inp: Input, gap: Gap)
    ensures GapStat(gap, StatsOf(inp.now, inp.items, inp.formats.fold))
            == Count(NextActions(inp), OfType(GapActionType(gap)))
    ensures GraphRefs.StampsAreText(inp) ==>
              (Count(SortedEdges(inp), EdgeOfType(GapEdgeType(gap)))
                == GapStat(gap, StatsOf(inp.now, inp.items, inp.formats.fold))
               <==> DistinctSlugs(inp, gap))
  {
    hide StatsOf, GapStat, NextActions, SortedEdges, GraphRefs.StampsAreText, DistinctSlugs, OfType, EdgeOfType,
      GapActionType, GapEdgeType, HasGap;
    StatsCountGaps(gap, inp.now, inp.items, inp.formats.fold);
    ActionsCountGaps(inp, gap);
    if GraphRefs.StampsAreText(inp) {
      EdgesCountGaps(inp, gap);
    }
  }

  // ---- Reasons and the first action -----------------------------------------

  lemma {:induction false} CollectedNotActive(now: Instant, items: seq<Item>)
    ensures Count(FlatMap(items, ItemActionsOf(now)), NotActive) == 0 <==> Penalty(now, items) == 0
  {
    hide ItemActions, NotActive, Penalty, IsOwnerless, IsStale, IsExpired, LacksControls, LacksVendors;
    if items != [] {
      var n := |items| - 1;
      CollectedNotActive(now, items[..n]);
      CountConcat(FlatMap(items[..n], ItemActionsOf(now)), ItemActions(now, items[n]), NotActive);
      ItemActionsCount(now, items[n], "");
      assert items == items[..n] + [items[n]];
      PenaltySnoc(now, items[..n], items[n]);
    } else {
      NoPenalty(now);
    }
  }

  lemma NoPenalty(now: Instant)
    ensures Penalty(now, []) == 0
  {
  }

  lemma TenantNotActive(tenantID: string, d: TenantData)
    ensures Count(TenantActions(tenantID, d), NotActive) == 0 <==> |d.proofpacks| > 0 && |d.reviews| >= 2
    ensures TenantActions(tenantID, d) != []
  {
    hide TenantNodeID, PilotNodeID, ActionID, Count;
    var s := TenantActions(tenantID, d);
    CountPositive(s, NotActive);
    if |d.proofpacks| == 0 || |d.reviews| < 2 {
      FirstTenantAction(tenantID, d);
      assert NotActive(s[0]);
    } else {
      LateTenantActions(tenantID, d);
    }
  }

  lemma FirstTenantAction(tenantID: string, d: TenantData)
    requires |d.proofpacks| == 0 || |d.reviews| < 2
    ensures TenantActions(tenantID, d) != [] && NotActive(TenantActions(tenantID, d)[0])
  {
  }

  lemma LateTenantActions(tenantID: string, d: TenantData)
    requires |d.proofpacks| > 0 && |d.reviews| >= 2
    ensures TenantActions(tenantID, d) != []
    ensures forall i :: 0 <= i < |TenantActions(tenantID, d)| ==> !NotActive(TenantActions(tenantID, d)[i])
  {
  }

  /** Severities that the actions use: "active" ranks last. */
  predicate Ranked(a: Action) {
    a.severity == "active" || SeverityRank(a.severity) < 8
  }

  lemma ItemActionsRanked(now: Instant, it: Item)
    ensures forall a :: a in ItemActions(now, it) ==> Ranked(a)
  {
    hide EvidenceNodeID, ActionID, IsOwnerless, IsStale, IsExpired;
  }

  lemma TenantActionsRanked(tenantID: string, d: TenantData)
    ensures forall a :: a in TenantActions(tenantID, d) ==> Ranked(a)
  {
    hide TenantNodeID, PilotNodeID, ActionID;
  }

  lemma ActionsRanked(inp: Input)
    ensures forall i :: 0 <= i < |NextActions(inp)| ==> Ranked(NextActions(inp)[i])
  {
    hide NextActions, ItemActions, TenantActions, Ranked;
    TenantActionsRanked(inp.tenantID, inp.data);
    forall i | 0 <= i < |NextActions(inp)|
      ensures Ranked(NextActions(inp)[i])
    {
      var a := NextActions(inp)[i];
      GraphClosure.ActionOrigin(inp, a);
      if k :| 0 <= k < |inp.items| && a in ItemActions(inp.now, inp.items[k]) {
        ItemActionsRanked(inp.now, inp.items[k]);
      }
    }
  }

  /** A sorted action list starts with an active one exactly when all its actions are active. */
  lemma FirstIsActive(actions: seq<Action>)
    requires actions != [] && Sorted(actions, ActionLess)
    requires forall i :: 0 <= i < |actions| ==> Ranked(actions[i])
    ensures actions[0].severity == "active" <==> Count(actions, NotActive) == 0
  {
    hide Text.Less, Count;
    CountPositive(actions, NotActive);
    if actions[0].severity == "active" {
      ActiveRank();
      forall i | 0 <= i < |actions| ensures !NotActive(actions[i]) {
        assert i > 0 ==> !ActionLess(actions[i], actions[0]);
        assert Ranked(actions[i]);
      }
    } else {
      assert NotActive(actions[0]);
    }
  }

  lemma ActiveRank()
    ensures SeverityRank("active") == 8
  {
  }

  /** Main result: before the caps there is no degraded reason exactly when there are items and the first of the
      sorted actions is an active one. */
  lemma NoReasonIffFirstActionActive(inp: Input)
    ensures NextActions(inp) != []
    ensures DegradedReasons(inp.now, inp.items, inp.data) == [] <==>
            inp.items != [] && NextActions(inp)[0].severity == "active"
  {
    hide ItemActions, TenantActions, NotActive, Penalty, Count, FlatMap, StableSort, ActionLess, DegradedReasons,
      Ranked;
    var raw, a, b := RawActions(inp), FlatMap(inp.items, ItemActionsOf(inp.now)), TenantActions(inp.tenantID, inp.data);
    ActionOrdering();
    SortIsPermutation(raw, ActionLess);
    SortIsSorted(raw, ActionLess);
    TenantNotActive(inp.tenantID, inp.data);
    assert |raw| == |a| + |b|;
    ActionsRanked(inp);
    FirstIsActive(NextActions(inp));
    CountUpToOrder(NextActions(inp), raw, NotActive);
    CountConcat(a, b, NotActive);
    CollectedNotActive(inp.now, inp.items);
    ReasonsAreGaps(inp.now, inp.items, inp.data);
  }
}

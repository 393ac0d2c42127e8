/** The two comparators of `sortGraph`, and `applyCaps`. */
module GraphOrder {
  import opened Text
  import Records
  import opened Sorting
  import opened Keyed
  import opened GraphModel
  import opened GraphHealth

  function NodeKey(n: Node): string { n.id }

  function EdgeKey(e: Edge): string { e.id }

  // ---- Comparators ----------------------------------------------------------

  predicate NodeLess(a: Node, b: Node) {
    if a.typ != b.typ then Less(a.typ, b.typ)
    else if SeverityRank(a.status) != SeverityRank(b.status) then SeverityRank(a.status) < SeverityRank(b.status)
    else if a.caption != b.caption then Less(a.caption, b.caption)
    else Less(a.id, b.id)
  }

  predicate EdgeLess(a: Edge, b: Edge) {
    if a.typ != b.typ then Less(a.typ, b.typ)
    else if a.source != b.source then Less(a.source, b.source)
    else Less(a.target, b.target)
  }

  lemma StrictText(a: string, b: string, c: string)
    ensures !Less(a, a) && !(Less(a, b) && Less(b, a))
    ensures a != b ==> Less(a, b) || Less(b, a)
    ensures Less(a, b) && Less(b, c) ==> Less(a, c)
  {
    LessIsStrict(a, a);
    LessIsStrict(a, b);
    LessIsTotal(a, b);
    if Less(a, b) && Less(b, c) {
      LessIsTransitive(a, b, c);
    }
  }

  lemma NodeOrdering()
    ensures Ordering(NodeLess)
  {
    hide Less, SeverityRank;
    forall a, b
      ensures !(NodeLess(a, b) && NodeLess(b, a))
    {
      StrictText(a.typ, b.typ, a.typ);
      StrictText(a.caption, b.caption, a.caption);
      StrictText(a.id, b.id, a.id);
    }
    forall a, b, c | !NodeLess(b, a) && !NodeLess(c, b)
      ensures !NodeLess(c, a)
    {
      NodeNotLess(a, b, c);
    }
  }

  lemma NodeNotLess(a: Node, b: Node, c: Node)
    requires !NodeLess(b, a) && !NodeLess(c, b)
    ensures !NodeLess(c, a)
  {
    hide Less, SeverityRank;
    StrictText(a.typ, b.typ, c.typ);
    StrictText(b.typ, c.typ, a.typ);
    StrictText(c.typ, a.typ, b.typ);
    StrictText(a.caption, b.caption, c.caption);
    StrictText(b.caption, c.caption, a.caption);
    StrictText(c.caption, a.caption, b.caption);
    StrictText(a.id, b.id, c.id);
    StrictText(b.id, c.id, a.id);
    StrictText(c.id, a.id, b.id);
  }

  lemma EdgeOrdering()
    ensures Ordering(EdgeLess)
  {
    hide Less;
    forall a, b
      ensures !(EdgeLess(a, b) && EdgeLess(b, a))
    {
      StrictText(a.typ, b.typ, a.typ);
      StrictText(a.source, b.source, a.source);
      StrictText(a.target, b.target, a.target);
    }
    forall a, b, c | !EdgeLess(b, a) && !EdgeLess(c, b)
      ensures !EdgeLess(c, a)
    {
      EdgeNotLess(a, b, c);
    }
  }

  lemma EdgeNotLess(a: Edge, b: Edge, c: Edge)
    requires !EdgeLess(b, a) && !EdgeLess(c, b)
    ensures !EdgeLess(c, a)
  {
    hide Less;
    StrictText(a.typ, b.typ, c.typ);
    StrictText(b.typ, c.typ, a.typ);
    StrictText(c.typ, a.typ, b.typ);
    StrictText(a.source, b.source, c.source);
    StrictText(b.source, c.source, a.source);
    StrictText(c.source, a.source, b.source);
    StrictText(a.target, b.target, c.target);
    StrictText(b.target, c.target, a.target);
    StrictText(c.target, a.target, b.target);
  }

  lemma ActionOrdering()
    ensures Ordering(ActionLess)
  {
    hide Less, SeverityRank;
    forall a, b
      ensures !(ActionLess(a, b) && ActionLess(b, a))
    {
      StrictText(a.id, b.id, a.id);
    }
    forall a, b, c | !ActionLess(b, a) && !ActionLess(c, b)
      ensures !ActionLess(c, a)
    {
      StrictText(a.id, b.id, c.id);
      StrictText(b.id, c.id, a.id);
      StrictText(c.id, a.id, b.id);
    }
  }

  predicate DistinctNodeIDs(ns: seq<Node>) {
    forall i, j :: 0 <= i < j < |ns| ==> ns[i].id != ns[j].id
  }

  predicate SameTriple(a: Edge, b: Edge) {
    a.typ == b.typ && a.source == b.source && a.target == b.target
  }

  predicate DistinctTriples(es: seq<Edge>) {
    forall i, j :: 0 <= i < j < |es| ==> !SameTriple(es[i], es[j])
  }

  lemma NodesSeparate(ns: seq<Node>)
    requires DistinctNodeIDs(ns)
    ensures Separates(ns, NodeLess)
  {
    hide Less, SeverityRank;
    forall i, j | 0 <= i < |ns| && 0 <= j < |ns| && ns[i] != ns[j]
      ensures NodeLess(ns[i], ns[j]) || NodeLess(ns[j], ns[i])
    {
      var a, b := ns[i], ns[j];
      assert a.id != b.id by { assert i < j || j < i; }
      StrictText(a.typ, b.typ, a.typ);
      StrictText(a.caption, b.caption, a.caption);
      StrictText(a.id, b.id, a.id);
    }
  }

  lemma EdgesSeparate(es: seq<Edge>)
    requires DistinctTriples(es)
    ensures Separates(es, EdgeLess)
  {
    hide Less;
    forall i, j | 0 <= i < |es| && 0 <= j < |es| && es[i] != es[j]
      ensures EdgeLess(es[i], es[j]) || EdgeLess(es[j], es[i])
    {
      var a, b := es[i], es[j];
      assert !SameTriple(a, b) by { assert i < j || j < i; }
      StrictText(a.typ, b.typ, a.typ);
      StrictText(a.source, b.source, a.source);
      StrictText(a.target, b.target, a.target);
    }
  }

  // ---- Caps -----------------------------------------------------------------

  function CapNode(tenantID: string, now: Records.Instant): Node {
    Node(CAP_NODE_ID, "action", "Graph output capped", tenantID, "degraded", now, now, Plain)
  }

  predicate Overflows(n: int, max: int) {
    max > 0 && n > max
  }

  function Within(ids: set<string>): Edge -> bool {
    (e: Edge) => e.source in ids && e.target in ids
  }

  /** The edges left when only the first `maxNodes` nodes are kept. */
  function KeptEdges(ns: seq<Node>, es: seq<Edge>, maxNodes: int): seq<Edge> {
    if Overflows(|ns|, maxNodes) then Filter(es, Within(Ids(ns[..maxNodes], NodeKey))) else es
  }

  function FirstEdges(es: seq<Edge>, maxEdges: int): seq<Edge> {
    if Overflows(|es|, maxEdges) then es[..maxEdges] else es
  }

  function KeptNodes(ns: seq<Node>, maxNodes: int, cap: Node): seq<Node> {
    if Overflows(|ns|, maxNodes) then ns[..maxNodes] + [cap] else ns
  }

  function CapReasons(ns: seq<Node>, es: seq<Edge>, maxNodes: int, maxEdges: int): seq<Reason> {
    When(Overflows(|ns|, maxNodes), NodesCapped(maxNodes, |ns|))
    + When(Overflows(|KeptEdges(ns, es, maxNodes)|, maxEdges), EdgesCapped(maxEdges, |es|))
  }

  /** The two-index compaction: kept edges move to the front, in order. */
  method CompactEdges(edges: array<Edge>, kept: set<string>) returns (k: nat)
    modifies edges
    ensures k <= edges.Length
    ensures edges[..k] == Filter(old(edges[..]), Within(kept))
  {
    ghost var was := edges[..];
    k := 0;
    for i := 0 to edges.Length
      invariant k <= i
      invariant edges[..k] == Filter(was[..i], Within(kept))
      invariant edges[i..] == was[i..]
    {
      assert edges[i] == edges[i..][0] == was[i];
      assert was[..i + 1] == was[..i] + [was[i]];
      FilterSnoc(was[..i], was[i], Within(kept));
      if edges[i].source !in kept || edges[i].target !in kept {
        assert edges[i + 1..] == edges[i..][1..];
        continue;
      }
      ghost var prefix := edges[..k];
      edges[k] := edges[i];
      assert edges[..k + 1] == prefix + [was[i]];
      k := k + 1;
      assert edges[i + 1..] == was[i + 1..];
    }
    assert was[..edges.Length] == was;
  }

  /** `applyCaps` on the sorted lists; `edges` is compacted in place. */
  method ApplyCaps(ns: seq<Node>, edges: array<Edge>, maxNodes: int, maxEdges: int, tenantID: string,
          now: Records.Instant)
    returns (nodes: seq<Node>, kept: seq<Edge>, reasons: seq<Reason>)
    modifies edges
    ensures nodes == StableSort(KeptNodes(ns, maxNodes, CapNode(tenantID, now)), NodeLess)
    ensures kept == StableSort(FirstEdges(KeptEdges(ns, old(edges[..]), maxNodes), maxEdges), EdgeLess)
    ensures reasons == CapReasons(ns, old(edges[..]), maxNodes, maxEdges)
  {
    hide NodeLess, EdgeLess, StableSort, Filter;
    ghost var was := edges[..];
    nodes, reasons := ns, [];
    var k := edges.Length;
    if maxNodes > 0 && |ns| > maxNodes {
      nodes := ns[..maxNodes];
      var ids: set<string> := {};
      for i := 0 to maxNodes
        invariant ids == Ids(ns[..i], NodeKey)
        invariant edges[..] == was
      {
        assert ns[..i + 1] == ns[..i] + [ns[i]];
        IdsConcat(ns[..i], [ns[i]], NodeKey);
        assert Ids([ns[i]], NodeKey) == {ns[i].id} by { assert [ns[i]][0] == ns[i]; }
        ids := ids + {ns[i].id};
      }
      k := CompactEdges(edges, ids);
      nodes := nodes + [CapNode(tenantID, now)];
      reasons := reasons + [NodesCapped(maxNodes, |ns|)];
    } else {
      assert edges[..k] == was;
    }
    assert edges[..k] == KeptEdges(ns, was, maxNodes);
    assert reasons == When(Overflows(|ns|, maxNodes), NodesCapped(maxNodes, |ns|));
    assert |was| == edges.Length;
    if maxEdges > 0 && k > maxEdges {
      assert edges[..maxEdges] == edges[..k][..maxEdges];
      k := maxEdges;
      reasons := reasons + [EdgesCapped(maxEdges, edges.Length)];
    }
    nodes := StableSort(nodes, NodeLess);
    kept := StableSort(edges[..k], EdgeLess);
  }

  // ---- What the caps return -------------------------------------------------

  lemma {:induction false} FilterKeepsSorted<T>(s: seq<T>, p: T -> bool, less: (T, T) -> bool)
    requires Sorted(s, less)
    ensures Sorted(Filter(s, p), less)
  {
    if s != [] {
      var front, x := s[..|s| - 1], s[|s| - 1];
      var f := Filter(front, p);
      FilterKeepsSorted(front, p, less);
      forall i | 0 <= i < |f|
        ensures !less(x, f[i])
      {
        var k := FilterOrigin(front, p, i);
        assert s[k] == f[i];
      }
    }
  }

  /** The second sort does not move the edges: a filtered prefix of a sorted list is sorted. */
  lemma CappedEdgesStaySorted(ns: seq<Node>, es: seq<Edge>, maxNodes: int, maxEdges: int)
    requires Sorted(es, EdgeLess)
    ensures Sorted(FirstEdges(KeptEdges(ns, es, maxNodes), maxEdges), EdgeLess)
    ensures StableSort(FirstEdges(KeptEdges(ns, es, maxNodes), maxEdges), EdgeLess)
            == FirstEdges(KeptEdges(ns, es, maxNodes), maxEdges)
  {
    if Overflows(|ns|, maxNodes) {
      FilterKeepsSorted(es, Within(Ids(ns[..maxNodes], NodeKey)), EdgeLess);
    }
    SortFixesSorted(FirstEdges(KeptEdges(ns, es, maxNodes), maxEdges), EdgeLess);
  }

  /** The sizes are bounded, and once the node cap fires both endpoints of every edge are kept nodes. */
  lemma CapsBoundAndClose(ns: seq<Node>, es: seq<Edge>, maxNodes: int, maxEdges: int, cap: Node)
    requires maxNodes > 0 && maxEdges > 0
    ensures |StableSort(KeptNodes(ns, maxNodes, cap), NodeLess)| <= maxNodes + 1
    ensures |FirstEdges(KeptEdges(ns, es, maxNodes), maxEdges)| <= maxEdges
    ensures Overflows(|ns|, maxNodes) ==>
              forall e :: e in FirstEdges(KeptEdges(ns, es, maxNodes), maxEdges) ==>
                e in es && e.source in Ids(ns[..maxNodes], NodeKey) && e.target in Ids(ns[..maxNodes], NodeKey)
  {
    hide NodeLess, StableSort, Filter;
    SortIsPermutation(KeptNodes(ns, maxNodes, cap), NodeLess);
    if Overflows(|ns|, maxNodes) {
      FilterMembers(es, Within(Ids(ns[..maxNodes], NodeKey)));
      forall e | e in FirstEdges(KeptEdges(ns, es, maxNodes), maxEdges)
        ensures e in es && e.source in Ids(ns[..maxNodes], NodeKey) && e.target in Ids(ns[..maxNodes], NodeKey)
      {
        assert e in KeptEdges(ns, es, maxNodes);
      }
    }
  }

  function NodesBut(cap: Node): Node -> bool {
    (n: Node) => n != cap
  }

  /** The nodes returned are the kept prefix, in unchanged order, plus the cap node. */
  lemma CapNodeIsInserted(ns: seq<Node>, maxNodes: int, cap: Node)
    requires Sorted(ns, NodeLess) && Overflows(|ns|, maxNodes)
    requires forall i :: 0 <= i < |ns| ==> ns[i] != cap
    ensures var out := StableSort(KeptNodes(ns, maxNodes, cap), NodeLess);
            multiset(out) == multiset(ns[..maxNodes]) + multiset{cap} && Filter(out, NodesBut(cap)) == ns[..maxNodes]
  {
    var prefix := ns[..maxNodes];
    NodeOrdering();
    SortIsPermutation(prefix + [cap], NodeLess);
    InsertLast(prefix, cap, NodeLess);
    FilterIsolates(prefix, cap, StableSort(prefix + [cap], NodeLess));
  }

  /** Sorting a sorted list with one more element at its end puts that element somewhere inside. */
  lemma {:induction false} InsertLast<T(!new)>(s: seq<T>, x: T, less: (T, T) -> bool)
    requires Ordering(less) && Sorted(s, less)
    ensures exists i :: 0 <= i <= |s| && StableSort(s + [x], less) == s[..i] + [x] + s[i..]
  {
    if s == [] {
      assert s + [x] == [x];
      assert StableSort([x], less) == s[..0] + [x] + s[0..];
    } else {
      var t := s[1..];
      InsertLast(t, x, less);
      assert (s + [x])[1..] == t + [x];
      var i :| 0 <= i <= |t| && StableSort(t + [x], less) == t[..i] + [x] + t[i..];
      InsertHead(s, x, i, less);
    }
  }

  lemma InsertHead<T(!new)>(s: seq<T>, x: T, i: nat, less: (T, T) -> bool)
    requires Ordering(less) && Sorted(s, less) && s != [] && i < |s|
    ensures exists j :: 0 <= j <= |s| && Insert(s[0], s[1..][..i] + [x] + s[1..][i..], less) == s[..j] + [x] + s[j..]
  {
    var t := s[1..];
    var u := t[..i] + [x] + t[i..];
    if i > 0 || !less(x, s[0]) {
      assert u[0] == if i > 0 then s[1] else x;
      assert Insert(s[0], u, less) == [s[0]] + u;
      assert [s[0]] + u == s[..i + 1] + [x] + s[i + 1..];
    } else {
      assert u == [x] + t;
      assert u[1..] == t;
      assert t != [] ==> !less(t[0], s[0]);
      assert Insert(s[0], t, less) == [s[0]] + t;
      assert s == [s[0]] + t;
      assert Insert(s[0], u, less) == [x] + s;
      assert [x] + s == s[..0] + [x] + s[0..];
    }
  }

  lemma {:induction false} FilterAll<T>(s: seq<T>, p: T -> bool)
    requires forall i :: 0 <= i < |s| ==> p(s[i])
    ensures Filter(s, p) == s
  {
    if s != [] {
      FilterAll(s[..|s| - 1], p);
      assert s == s[..|s| - 1] + [s[|s| - 1]];
    }
  }

  lemma FilterIsolates(s: seq<Node>, cap: Node, out: seq<Node>)
    requires forall i :: 0 <= i < |s| ==> s[i] != cap
    requires exists i :: 0 <= i <= |s| && out == s[..i] + [cap] + s[i..]
    ensures Filter(out, NodesBut(cap)) == s
  {
    var p := NodesBut(cap);
    hide Filter;
    var i :| 0 <= i <= |s| && out == s[..i] + [cap] + s[i..];
    FilterAll(s[..i], p);
    FilterAll(s[i..], p);
    FilterConcat(s[..i] + [cap], s[i..], p);
    FilterSnoc(s[..i], cap, p);
    assert s == s[..i] + s[i..];
  }
}

/** The evidence graph built from what a run has stored. */
module SystemGraph {
  import Slugs
  import opened Records
  import Evidence
  import Sorting
  import opened GraphModel
  import GraphOrder
  import GraphClosure
  import GraphRefs
  import opened GraphSources
  import GraphTheorems
  import EvidenceGraph
  import opened SystemRuns
  import RunsOfManifests

  // ---- Manifest edges -------------------------------------------------------

  function ManifestTriple(evidenceID: string, packID: string): Triple {
    Triple("INCLUDED_IN_PROOFPACK", EvidenceNodeID(evidenceID), ProofpackNodeID(packID))
  }

  /** Entry `k` of pack `p` is drawn as this edge, and names a known item. */
  ghost predicate Draws(p: Proofpack, k: nat, known: set<string>, evidenceID: string, packID: string) {
    && k < |p.evidenceIDs| && p.evidenceIDs[k] in known
    && Slugs.Slug(p.evidenceIDs[k]) == Slugs.Slug(evidenceID) && Slugs.Slug(p.id) == Slugs.Slug(packID)
  }

  ghost predicate SomeDraws(packs: seq<Proofpack>, known: set<string>, evidenceID: string, packID: string) {
    exists m, k: nat :: 0 <= m < |packs| && Draws(packs[m], k, known, evidenceID, packID)
  }

  /** Only a manifest justifies an edge of this type. */
  lemma ManifestOnly(inp: Input, evidenceID: string, packID: string)
    ensures Justified(inp, ManifestTriple(evidenceID, packID)) <==>
            exists m :: 0 <= m < |inp.data.proofpacks|
                        && FromManifest(inp, inp.data.proofpacks[m], ManifestTriple(evidenceID, packID))
  {
    hide TypedNodeID, FromManifest, ActionID, EventSource, EventNodeID, SnapshotNodeID, ExportNodeID, NarrativeNodeID,
      Evidence.IsOwnerless, Evidence.IsExpired, Evidence.IsStale;
    assert ManifestTriple(evidenceID, packID).typ[2] == 'C';
    assert |ManifestTriple(evidenceID, packID).typ| == 21;
  }

  lemma ManifestDraws(inp: Input, p: Proofpack, evidenceID: string, packID: string)
    ensures FromManifest(inp, p, ManifestTriple(evidenceID, packID)) <==>
            exists k: nat :: Draws(p, k, KnownIDs(inp.items), evidenceID, packID)
  {
    hide Slugs.Slug, TypedNodeID;
    GraphClosure.SameTypedID("proofpack", p.id, packID);
    forall id
      ensures EvidenceNodeID(id) == EvidenceNodeID(evidenceID) <==> Slugs.Slug(id) == Slugs.Slug(evidenceID)
    {
      GraphClosure.SameTypedID("evidence", id, evidenceID);
    }
    var t := ManifestTriple(evidenceID, packID);
    if FromManifest(inp, p, t) {
      var k, i :| 0 <= k < |p.evidenceIDs| && 0 <= i < |inp.items| && inp.items[i].id == p.evidenceIDs[k]
        && t == Triple("INCLUDED_IN_PROOFPACK", EvidenceNodeID(inp.items[i].id), ProofpackNodeID(p.id));
      assert Draws(p, k, KnownIDs(inp.items), evidenceID, packID);
    }
    if k: nat :| Draws(p, k, KnownIDs(inp.items), evidenceID, packID) {
      var i :| 0 <= i < |inp.items| && inp.items[i].id == p.evidenceIDs[k];
    }
  }

  lemma SortKeepsProofpacks(d: TenantData)
    ensures forall p :: p in SortTenantData(d).proofpacks <==> p in d.proofpacks
  {
    hide Sorting.StableSort, SortReviews;
    Sorting.SortIsPermutation(d.proofpacks, PackedLater);
    Sorting.SameMembers(d.proofpacks, Sorting.StableSort(d.proofpacks, PackedLater));
  }

  lemma ManifestJustified(inp: Input, raw: TenantData, evidenceID: string, packID: string)
    requires inp.data == SortTenantData(raw)
    ensures Justified(inp, ManifestTriple(evidenceID, packID)) <==>
            SomeDraws(raw.proofpacks, KnownIDs(inp.items), evidenceID, packID)
  {
    hide Justified, FromManifest, Draws, ManifestTriple, KnownIDs, SortTenantData;
    var t, known, sorted := ManifestTriple(evidenceID, packID), KnownIDs(inp.items), inp.data.proofpacks;
    ManifestOnly(inp, evidenceID, packID);
    SortKeepsProofpacks(raw);
    if m :| 0 <= m < |sorted| && FromManifest(inp, sorted[m], t) {
      ManifestDraws(inp, sorted[m], evidenceID, packID);
      assert sorted[m] in raw.proofpacks;
      var n :| 0 <= n < |raw.proofpacks| && raw.proofpacks[n] == sorted[m];
      var k: nat :| Draws(sorted[m], k, known, evidenceID, packID);
      assert Draws(raw.proofpacks[n], k, known, evidenceID, packID);
    }
    if n, k: nat :| 0 <= n < |raw.proofpacks| && Draws(raw.proofpacks[n], k, known, evidenceID, packID) {
      assert raw.proofpacks[n] in sorted;
      var m :| 0 <= m < |sorted| && sorted[m] == raw.proofpacks[n];
      ManifestDraws(inp, sorted[m], evidenceID, packID);
    }
  }

  // ---- The items and the proofpacks are read at different moments -----------

  /** What one `Build` reads for a tenant: the items at one moment of a run and the records at another. */
  ghost predicate ReadAt(inp: Input, raw: TenantData, itemsAt: Sys, recordsAt: Sys, t: string) {
    && inp.items == Rows(itemsAt.st.evidence, t)
    && raw.proofpacks == Rows(recordsAt.st.proofpacks, t)
    && inp.data == SortTenantData(raw)
  }

  /** Entry `k` of pack `p` has these slugs, and the entries from it on are no more than `n`. */
  ghost predicate Fits(p: Proofpack, k: nat, n: nat, evidenceID: string, packID: string) {
    && k < |p.evidenceIDs| && |p.evidenceIDs| - k <= n
    && Slugs.Slug(p.evidenceIDs[k]) == Slugs.Slug(evidenceID) && Slugs.Slug(p.id) == Slugs.Slug(packID)
  }

  ghost predicate SomeFits(packs: seq<Proofpack>, n: nat, evidenceID: string, packID: string) {
    exists m, k: nat :: 0 <= m < |packs| && Fits(packs[m], k, n, evidenceID, packID)
  }

  lemma DrawsIffFits(c: Config, trace: seq<Sys>, steps: seq<Step>, a: nat, b: nat, t: string, evidenceID: string,
          packID: string)
    requires IsRun(c, trace, steps) && a <= |steps| && b <= |steps|
    ensures var packs, rows := Rows(trace[b].st.proofpacks, t), Rows(trace[a].st.evidence, t);
            SomeDraws(packs, KnownIDs(rows), evidenceID, packID) <==> SomeFits(packs, |rows|, evidenceID, packID)
  {
    hide Next, Rows, KnownIDs, Slugs.Slug;
    var packs, rows := Rows(trace[b].st.proofpacks, t), Rows(trace[a].st.evidence, t);
    forall m, k: nat | 0 <= m < |packs|
      ensures Draws(packs[m], k, KnownIDs(rows), evidenceID, packID) <==> Fits(packs[m], k, |rows|, evidenceID, packID)
    {
      if k < |packs[m].evidenceIDs| {
        RunsOfManifests.EntryIsKnownIff(c, trace, steps, a, b, t, m, k);
      }
    }
  }

  /** Main result, for items read at `a` and records read at `b` in either order (`Build` reads the items first):
      the edge of a manifest entry is in an uncut graph exactly when some entry with its slugs names an item listed
      at `a`, and that is exactly when, from such an entry on, its manifest is no longer than the list of items. */
  lemma GraphShowsManifests(c: Config, trace: seq<Sys>, steps: seq<Step>, a: nat, b: nat, t: string, inp: Input,
          raw: TenantData, m: nat, k: nat, maxNodes: int, maxEdges: int)
    requires IsRun(c, trace, steps) && a <= |steps| && b <= |steps| && ReadAt(inp, raw, trace[a], trace[b], t)
    requires m < |raw.proofpacks| && k < |raw.proofpacks[m].evidenceIDs|
    requires GraphTheorems.Uncut(inp, maxNodes, maxEdges) && GraphRefs.StampsAreText(inp)
    ensures var p, rows := raw.proofpacks[m], Rows(trace[a].st.evidence, t);
            var edges := EvidenceGraph.GraphOf(inp, maxNodes, maxEdges).edges;
            var shown := Emits(edges, ManifestTriple(p.evidenceIDs[k], p.id));
            && (shown <==> SomeDraws(raw.proofpacks, KnownIDs(rows), p.evidenceIDs[k], p.id))
            && (shown <==> SomeFits(raw.proofpacks, |rows|, p.evidenceIDs[k], p.id))
            && (|p.evidenceIDs| - k <= |rows| ==> shown)
  {
    hide Next, Rows, KnownIDs, Justified, ManifestTriple, GraphRefs.StampsAreText, SortTenantData,
      EvidenceGraph.GraphOf, EvidenceGraph.SortedNodes, EvidenceGraph.SortedEdges, GraphOrder.CapReasons, Slugs.Slug,
      SomeDraws;
    var p, rows := raw.proofpacks[m], Rows(trace[a].st.evidence, t);
    ManifestJustified(inp, raw, p.evidenceIDs[k], p.id);
    GraphTheorems.GraphFollowsSourceRules(inp, maxNodes, maxEdges, ManifestTriple(p.evidenceIDs[k], p.id));
    DrawsIffFits(c, trace, steps, a, b, t, p.evidenceIDs[k], p.id);
    if |p.evidenceIDs| - k <= |rows| {
      assert Fits(raw.proofpacks[m], k, |rows|, p.evidenceIDs[k], p.id);
    }
  }
}

/** What a manifest is over a run: an export reads all items of the tenant and items are only added in front, so it
    names the tenant's oldest items, in order. */
module RunsOfManifests {
  import opened Records
  import GraphModel
  import opened EvidenceService
  import OperationsService
  import AdjudicationService
  import AuditService
  import BillingService
  import RemindersService
  import opened SystemRuns
  import opened RunsOfEvidence
  import SystemTheorems

  // ---- The invariant --------------------------------------------------------

  /** The identifiers are those of the last rows. */
  predicate IsTail(rows: seq<Item>, ids: seq<string>) {
    |ids| <= |rows| && forall k :: 0 <= k < |ids| ==> rows[|rows| - |ids| + k].id == ids[k]
  }

  predicate PackTails(rows: seq<Item>, packs: seq<Proofpack>) {
    forall p :: 0 <= p < |packs| ==> IsTail(rows, packs[p].evidenceIDs)
  }

  ghost predicate ExportTails(s: Sys) {
    forall e :: e in s.exports ==> IsTail(Rows(s.st.evidence, e.tenantID), e.manifest)
  }

  ghost predicate Tails(s: Sys) {
    (forall t :: PackTails(Rows(s.st.evidence, t), Rows(s.st.proofpacks, t))) && ExportTails(s)
  }

  // ---- Steps ----------------------------------------------------------------

  lemma TailLater(before: seq<Item>, after: seq<Item>, ids: seq<string>)
    requires IsTail(before, ids) && RowsEvolve(before, after)
    ensures IsTail(after, ids)
  {
    forall k | 0 <= k < |ids| ensures after[|after| - |ids| + k].id == ids[k] {
      assert after[|after| - |before| + (|before| - |ids| + k)].id == before[|before| - |ids| + k].id;
    }
  }

  lemma PackTailsLater(before: seq<Item>, after: seq<Item>, packs: seq<Proofpack>)
    requires PackTails(before, packs) && RowsEvolve(before, after)
    ensures PackTails(after, packs)
  {
    hide IsTail, RowsEvolve;
    forall p | 0 <= p < |packs| ensures IsTail(after, packs[p].evidenceIDs) {
      TailLater(before, after, packs[p].evidenceIDs);
    }
  }

  lemma WholeIsTail(rows: seq<Item>)
    ensures IsTail(rows, ManifestOf(rows))
  {
  }

  lemma ExportTailsLater(s: Sys, s': Sys)
    requires ExportTails(s) && EvidenceEvolves(s, s') && s'.exports <= s.exports
    ensures ExportTails(s')
  {
    hide IsTail, RowsEvolve, Rows;
    forall e | e in s'.exports ensures IsTail(Rows(s'.st.evidence, e.tenantID), e.manifest) {
      TailLater(Rows(s.st.evidence, e.tenantID), Rows(s'.st.evidence, e.tenantID), e.manifest);
    }
  }

  lemma ExportTailsKept(c: Config, s: Sys, step: Step, s': Sys)
    requires ExportTails(s) && EvidenceEvolves(s, s') && Next(c, s, step, s')
    ensures ExportTails(s')
  {
    hide IsTail, EvidenceEvolves, Rows, CreateStep, UpdateStep, AttachStep, ProofpackStep, OperationsService.EventStep,
      RemindersService.KeyMarkStep, AuditService.LogStep, OperationsService.ReviewStep, OperationsService.SnapshotStep,
      OperationsService.ReportStep, AdjudicationService.EnsureStep, AdjudicationService.ResolveStep,
      BillingService.MarkStep, ManifestOf;
    if step.ReadForExport? {
      WholeIsTail(Rows(s.st.evidence, step.t));
    } else {
      hide ExportTails;
      assert s'.exports <= s.exports;
      ExportTailsLater(s, s');
    }
  }

  lemma PackTailsPrepend(rows: seq<Item>, packs: seq<Proofpack>, packs': seq<Proofpack>, ids: seq<string>)
    requires PackTails(rows, packs) && IsTail(rows, ids)
    requires |packs'| == |packs| + 1 && packs'[0].evidenceIDs == ids && packs'[1..] == packs
    ensures PackTails(rows, packs')
  {
    hide IsTail;
    forall p | 0 <= p < |packs'| ensures IsTail(rows, packs'[p].evidenceIDs) {
      assert p > 0 ==> packs'[p] == packs'[1..][p - 1];
    }
  }

  lemma TailsKept(c: Config, s: Sys, step: Step, s': Sys)
    requires Tails(s) && EvidenceEvolves(s, s') && Next(c, s, step, s')
    ensures Tails(s')
  {
    hide Next, PackTails, IsTail, RowsEvolve, Rows;
    ExportTailsKept(c, s, step, s');
    forall t ensures PackTails(Rows(s'.st.evidence, t), Rows(s'.st.proofpacks, t)) {
      var rows, rows' := Rows(s.st.evidence, t), Rows(s'.st.evidence, t);
      PacksRecorded(c, s, step, s', t);
      PackTailsLater(rows, rows', Rows(s.st.proofpacks, t));
      if step.RecordExport? && Rows(s'.st.proofpacks, t) != Rows(s.st.proofpacks, t) {
        assert RowsEvolve(rows, rows');
        TailLater(rows, rows', step.pending.manifest);
        PackTailsPrepend(rows', Rows(s.st.proofpacks, t), Rows(s'.st.proofpacks, t), step.pending.manifest);
      }
    }
  }

  // ---- Every run ------------------------------------------------------------

  /** In every state of every run a manifest names the oldest items of its tenant. */
  lemma {:induction false} ManifestsAreTails(c: Config, trace: seq<Sys>, steps: seq<Step>, n: nat)
    requires IsRun(c, trace, steps) && n <= |steps|
    ensures Tails(trace[n])
  {
    hide Next, PackTails, ExportTails, EvidenceEvolves, SystemTheorems.Evolves;
    if n == 0 {
      TailsAtStart();
    } else {
      ManifestsAreTails(c, trace, steps, n - 1);
      RowsAdvance(c, trace, steps, n - 1, n);
      TailsKept(c, trace[n - 1], steps[n - 1], trace[n]);
    }
  }

  lemma TailsAtStart()
    ensures Tails(START)
  {
  }

  lemma RowsAdvance(c: Config, trace: seq<Sys>, steps: seq<Step>, j: nat, k: nat)
    requires IsRun(c, trace, steps) && j <= k <= |steps|
    ensures EvidenceEvolves(trace[j], trace[k])
  {
    hide Next, EvidenceEvolves;
    SystemTheorems.RunEvolves(c, trace, steps, j, k);
  }

  lemma RowsDistinct(c: Config, trace: seq<Sys>, steps: seq<Step>, n: nat, t: string)
    requires IsRun(c, trace, steps) && n <= |steps|
    ensures DistinctItems(Rows(trace[n].st.evidence, t))
  {
    hide Next, Rows;
    forall i, j | 0 <= i < j < |Rows(trace[n].st.evidence, t)|
      ensures Rows(trace[n].st.evidence, t)[i].id != Rows(trace[n].st.evidence, t)[j].id
    {
      if Rows(trace[n].st.evidence, t)[i].id == Rows(trace[n].st.evidence, t)[j].id {
        SystemTheorems.ItemIDsAreUnique(c, trace, steps, n, t, i, t, j);
      }
    }
  }

  /** Of identifiers of the last later rows, those held earlier are the last ones that fit. */
  lemma HeldEarlier(before: seq<Item>, after: seq<Item>, ids: seq<string>, k: nat)
    requires RowsEvolve(before, after) && DistinctItems(after) && IsTail(after, ids) && k < |ids|
    ensures ids[k] in GraphModel.KnownIDs(before) <==> |ids| - k <= |before|
  {
    assert after[|after| - |ids| + k].id == ids[k];
    if |ids| - k <= |before| {
      var i := |before| - |ids| + k;
      assert after[|after| - |before| + i].id == before[i].id;
    }
    if ids[k] in GraphModel.KnownIDs(before) {
      var i :| 0 <= i < |before| && before[i].id == ids[k];
      assert after[|after| - |before| + i].id == after[|after| - |ids| + k].id;
    }
  }

  lemma HeldOfTail(rows: seq<Item>, ids: seq<string>, k: nat)
    requires IsTail(rows, ids) && k < |ids|
    ensures ids[k] in GraphModel.KnownIDs(rows)
  {
    assert rows[|rows| - |ids| + k].id == ids[k];
  }

  /** Main result, for the items of any moment `a` and the proofpacks of any moment `b`, in either order: an entry of
      a manifest names one of the items exactly when the items are at least as many as the entries from it on. */
  lemma EntryIsKnownIff(c: Config, trace: seq<Sys>, steps: seq<Step>, a: nat, b: nat, t: string, p: nat, k: nat)
    requires IsRun(c, trace, steps) && a <= |steps| && b <= |steps|
    requires p < |Rows(trace[b].st.proofpacks, t)| && k < |Rows(trace[b].st.proofpacks, t)[p].evidenceIDs|
    ensures var ids, rows := Rows(trace[b].st.proofpacks, t)[p].evidenceIDs, Rows(trace[a].st.evidence, t);
            ids[k] in GraphModel.KnownIDs(rows) <==> |ids| - k <= |rows|
  {
    hide Next, Rows, RowsEvolve, GraphModel.KnownIDs, DistinctItems;
    var ids := Rows(trace[b].st.proofpacks, t)[p].evidenceIDs;
    var rowsA, rowsB := Rows(trace[a].st.evidence, t), Rows(trace[b].st.evidence, t);
    ManifestsAreTails(c, trace, steps, b);
    assert PackTails(rowsB, Rows(trace[b].st.proofpacks, t));
    if a <= b {
      RowsAdvance(c, trace, steps, a, b);
      RowsDistinct(c, trace, steps, b, t);
      HeldEarlier(rowsA, rowsB, ids, k);
    } else {
      RowsAdvance(c, trace, steps, b, a);
      TailLater(rowsB, rowsA, ids);
      HeldOfTail(rowsA, ids, k);
    }
  }
}

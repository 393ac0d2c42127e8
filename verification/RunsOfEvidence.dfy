/** What every run keeps about evidence items, files and proofpack manifests. */
module RunsOfEvidence {
  import opened Records
  import opened EvidenceService
  import opened OperationsService
  import AdjudicationService
  import AuditService
  import BillingService
  import RemindersService
  import opened SystemRuns

  // ---- The invariant --------------------------------------------------------

  /** Every identifier of the list is that of an item. */
  ghost predicate AllHeld(rows: seq<Item>, ids: seq<string>) {
    forall k :: 0 <= k < |ids| ==> Has(rows, ids[k])
  }

  ghost predicate FilesHeld(rows: seq<Item>, files: seq<EvidenceFile>) {
    forall k :: 0 <= k < |files| ==> Has(rows, files[k].evidenceID)
  }

  ghost predicate ManifestsHeld(rows: seq<Item>, packs: seq<Proofpack>) {
    forall k :: 0 <= k < |packs| ==> AllHeld(rows, packs[k].evidenceIDs)
  }

  /** Every item's identifier was drawn for its tenant. */
  predicate Owned(owner: map<string, string>, t: string, rows: seq<Item>) {
    forall i :: 0 <= i < |rows| ==> rows[i].id in owner && owner[rows[i].id] == t
  }

  /** The invariant of the items alone. */
  predicate ItemsOk(c: Config, owner: map<string, string>, t: string, rows: seq<Item>) {
    RowsOk(t, rows, c.limit, c.fold) && DistinctItems(rows) && Owned(owner, t, rows)
  }

  ghost predicate TenantOk(c: Config, owner: map<string, string>, t: string, rows: seq<Item>,
          files: seq<EvidenceFile>, packs: seq<Proofpack>) {
    ItemsOk(c, owner, t, rows) && FilesHeld(rows, files) && ManifestsHeld(rows, packs)
  }

  ghost predicate TenantsOk(c: Config, s: Sys) {
    forall t :: TenantOk(c, s.owner, t, Rows(s.st.evidence, t), Rows(s.st.files, t), Rows(s.st.proofpacks, t))
  }

  ghost predicate ExportsHeld(s: Sys) {
    forall e :: e in s.exports ==> AllHeld(Rows(s.st.evidence, e.tenantID), e.manifest)
  }

  ghost predicate EvidenceOk(c: Config, s: Sys) {
    TenantsOk(c, s) && ExportsHeld(s) && s.owner.Keys <= s.drawn
  }

  ghost predicate EvidenceEvolves(s: Sys, s': Sys) {
    forall t :: RowsEvolve(Rows(s.st.evidence, t), Rows(s'.st.evidence, t))
  }

  // ---- One tenant -----------------------------------------------------------

  /** Files and manifests still name items after the rows evolved. */
  lemma RefsHeldLater(before: seq<Item>, after: seq<Item>, files: seq<EvidenceFile>, packs: seq<Proofpack>)
    requires RowsEvolve(before, after) && FilesHeld(before, files) && ManifestsHeld(before, packs)
    ensures FilesHeld(after, files) && ManifestsHeld(after, packs)
  {
  }

  /** Rows that hold no new identifiers are still owned. */
  lemma OwnedLater(owner: map<string, string>, t: string, before: seq<Item>, after: seq<Item>)
    requires Owned(owner, t, before) && forall x :: Has(after, x) ==> Has(before, x)
    ensures Owned(owner, t, after)
  {
    forall i | 0 <= i < |after|
      ensures after[i].id in owner && owner[after[i].id] == t
    {
      assert Has(after, after[i].id);
      assert Has(before, after[i].id);
    }
  }

  lemma OwnedAfterDraw(owner: map<string, string>, t: string, rows: seq<Item>, newID: string, u: string)
    requires Owned(owner, t, rows) && newID !in owner
    ensures Owned(owner[newID := u], t, rows) && !Has(rows, newID)
  {
  }

  lemma OwnedAfterCreate(owner: map<string, string>, t: string, before: seq<Item>, after: seq<Item>, newID: string)
    requires Owned(owner, t, before) && newID !in owner
    requires forall x :: Has(after, x) ==> Has(before, x) || x == newID
    ensures Owned(owner[newID := t], t, after)
  {
    forall i | 0 <= i < |after|
      ensures after[i].id in owner[newID := t] && owner[newID := t][after[i].id] == t
    {
      assert Has(after, after[i].id);
      if after[i].id != newID {
        assert Has(before, after[i].id);
      }
    }
  }

  // ---- Steps ----------------------------------------------------------------

  lemma CreateItems(c: Config, s: Sys, s': Sys, t: string, it: Item, now: Instant, stamp: Instant, newID: string,
          u: string)
    requires ItemsOk(c, s.owner, u, Rows(s.st.evidence, u)) && s.owner.Keys <= s.drawn
    requires Next(c, s, CreateItem(t, it, now, stamp, newID), s')
    ensures ItemsOk(c, s'.owner, u, Rows(s'.st.evidence, u))
    ensures RowsEvolve(Rows(s.st.evidence, u), Rows(s'.st.evidence, u))
  {
    hide RowsEvolve, RowsOk, DistinctItems, Owned, RowsAfterCreate, Rows;
    var before, after := Rows(s.st.evidence, u), Rows(s'.st.evidence, u);
    OwnedAfterDraw(s.owner, u, before, newID, t);
    if u == t {
      CreateKeepsRows(before, t, it, c.limit, now, stamp, newID, c.fold);
      OwnedAfterCreate(s.owner, t, before, after, newID);
    } else {
      UnchangedRows(before);
    }
  }

  lemma UpdateItems(c: Config, s: Sys, s': Sys, t: string, id: string, it: Item, now: Instant, stamp: Instant,
          u: string)
    requires ItemsOk(c, s.owner, u, Rows(s.st.evidence, u)) && Next(c, s, UpdateItem(t, id, it, now, stamp), s')
    ensures ItemsOk(c, s'.owner, u, Rows(s'.st.evidence, u))
    ensures RowsEvolve(Rows(s.st.evidence, u), Rows(s'.st.evidence, u))
  {
    hide RowsEvolve, RowsOk, DistinctItems, Owned, RowsAfterUpdate, Rows;
    var before, after := Rows(s.st.evidence, u), Rows(s'.st.evidence, u);
    if u == t {
      UpdateKeepsRows(before, t, id, it, c.limit, now, stamp, c.fold);
      OwnedLater(s.owner, t, before, after);
    } else {
      UnchangedRows(before);
    }
  }

  lemma AttachItems(c: Config, s: Sys, s': Sys, t: string, file: EvidenceFile, stamp: Instant, u: string)
    requires ItemsOk(c, s.owner, u, Rows(s.st.evidence, u)) && Next(c, s, Attach(t, file, stamp), s')
    ensures ItemsOk(c, s'.owner, u, Rows(s'.st.evidence, u))
    ensures RowsEvolve(Rows(s.st.evidence, u), Rows(s'.st.evidence, u))
  {
    hide RowsEvolve, RowsOk, DistinctItems, Owned, RowsAfterAttach, FilesAfterAttach, Rows;
    var before, after := Rows(s.st.evidence, u), Rows(s'.st.evidence, u);
    if u == t {
      AttachKeepsRows(before, t, file.evidenceID, file.filePath, stamp, c.limit, c.fold);
      OwnedLater(s.owner, t, before, after);
    } else {
      UnchangedRows(before);
    }
  }

  lemma ExportItems(c: Config, s: Sys, step: Step, s': Sys)
    requires Next(c, s, step, s') && (step.ReadForExport? || step.RecordExport?)
    ensures s'.st.evidence == s.st.evidence && s'.owner == s.owner
  {
    hide ManifestOf;
  }

  predicate TouchesEvidence(step: Step) {
    step.CreateItem? || step.UpdateItem? || step.Attach? || step.ReadForExport? || step.RecordExport?
  }

  /** The other services leave the evidence alone. */
  lemma EvidenceUntouched(c: Config, s: Sys, step: Step, s': Sys)
    requires Next(c, s, step, s') && !TouchesEvidence(step)
    ensures s'.st.evidence == s.st.evidence && s'.st.files == s.st.files && s'.st.proofpacks == s.st.proofpacks
    ensures s'.owner == s.owner && s'.exports == s.exports && s.drawn <= s'.drawn
  {
  }

  /** Every step keeps the invariant of a tenant's items, whatever its files and proofpacks name. */
  lemma ItemsKept(c: Config, s: Sys, step: Step, s': Sys, u: string)
    requires ItemsOk(c, s.owner, u, Rows(s.st.evidence, u)) && s.owner.Keys <= s.drawn && Next(c, s, step, s')
    ensures ItemsOk(c, s'.owner, u, Rows(s'.st.evidence, u))
    ensures RowsEvolve(Rows(s.st.evidence, u), Rows(s'.st.evidence, u))
  {
    hide Next, ItemsOk, RowsEvolve, Rows;
    if step.CreateItem? {
      CreateItems(c, s, s', step.t, step.it, step.now, step.stamp, step.newID, u);
    } else if step.UpdateItem? {
      UpdateItems(c, s, s', step.t, step.id, step.it, step.now, step.stamp, u);
    } else if step.Attach? {
      AttachItems(c, s, s', step.t, step.file, step.stamp, u);
    } else {
      UnchangedRows(Rows(s.st.evidence, u));
      if step.ReadForExport? || step.RecordExport? {
        ExportItems(c, s, step, s');
      } else {
        EvidenceUntouched(c, s, step, s');
      }
    }
  }

  // ---- What names items -----------------------------------------------------

  lemma FilesAfterAttachHeld(rows: seq<Item>, after: seq<Item>, files: seq<EvidenceFile>, file: EvidenceFile)
    requires FilesHeld(after, files) && RowsEvolve(rows, after)
    ensures FilesHeld(after, FilesAfterAttach(rows, files, file))
  {
  }

  /** Only attaching records a file. */
  lemma FilesRecorded(c: Config, s: Sys, step: Step, s': Sys, t: string)
    requires Next(c, s, step, s')
    ensures var files, files' := Rows(s.st.files, t), Rows(s'.st.files, t);
            files' == if step.Attach? && step.t == t then FilesAfterAttach(Rows(s.st.evidence, t), files, step.file)
            else files
  {
    hide Rows, RowsAfterCreate, RowsAfterUpdate, RowsAfterAttach, FilesAfterAttach, ManifestOf;
    if !TouchesEvidence(step) {
      hide Next;
      EvidenceUntouched(c, s, step, s');
    }
  }

  /** Only an export records a manifest, and it is one that was read. */
  lemma PacksRecorded(c: Config, s: Sys, step: Step, s': Sys, t: string)
    requires Next(c, s, step, s')
    ensures var packs, packs' := Rows(s.st.proofpacks, t), Rows(s'.st.proofpacks, t);
            packs' == packs
              || (step.RecordExport? && step.pending in s.exports && step.pending.tenantID == t
                && |packs'| == |packs| + 1 && packs'[0].evidenceIDs == step.pending.manifest && packs'[1..] == packs)
  {
    hide Rows, RowsAfterCreate, RowsAfterUpdate, RowsAfterAttach, FilesAfterAttach, ManifestOf;
    if !TouchesEvidence(step) {
      hide Next;
      EvidenceUntouched(c, s, step, s');
    }
  }

  lemma ManifestsPrepend(rows: seq<Item>, packs: seq<Proofpack>, packs': seq<Proofpack>, ids: seq<string>)
    requires ManifestsHeld(rows, packs) && AllHeld(rows, ids)
    requires |packs'| == |packs| + 1 && packs'[0].evidenceIDs == ids && packs'[1..] == packs
    ensures ManifestsHeld(rows, packs')
  {
    hide AllHeld;
    forall p | 0 <= p < |packs'| ensures AllHeld(rows, packs'[p].evidenceIDs) {
      assert p > 0 ==> packs'[p] == packs'[1..][p - 1];
    }
  }

  lemma HeldLater(before: seq<Item>, after: seq<Item>, ids: seq<string>)
    requires RowsEvolve(before, after) && AllHeld(before, ids)
    ensures AllHeld(after, ids)
  {
  }

  lemma RefsKept(c: Config, s: Sys, step: Step, s': Sys, u: string)
    requires Next(c, s, step, s') && ExportsHeld(s)
    requires RowsEvolve(Rows(s.st.evidence, u), Rows(s'.st.evidence, u))
    requires FilesHeld(Rows(s.st.evidence, u), Rows(s.st.files, u))
    requires ManifestsHeld(Rows(s.st.evidence, u), Rows(s.st.proofpacks, u))
    ensures FilesHeld(Rows(s'.st.evidence, u), Rows(s'.st.files, u))
    ensures ManifestsHeld(Rows(s'.st.evidence, u), Rows(s'.st.proofpacks, u))
  {
    hide Next, RowsEvolve, FilesHeld, ManifestsHeld, AllHeld, FilesAfterAttach, Rows;
    var before, after := Rows(s.st.evidence, u), Rows(s'.st.evidence, u);
    RefsHeldLater(before, after, Rows(s.st.files, u), Rows(s.st.proofpacks, u));
    FilesRecorded(c, s, step, s', u);
    PacksRecorded(c, s, step, s', u);
    if step.Attach? && step.t == u {
      FilesAfterAttachHeld(before, after, Rows(s.st.files, u), step.file);
    } else if Rows(s'.st.proofpacks, u) != Rows(s.st.proofpacks, u) {
      HeldLater(before, after, step.pending.manifest);
      ManifestsPrepend(after, Rows(s.st.proofpacks, u), Rows(s'.st.proofpacks, u), step.pending.manifest);
    }
  }

  lemma ManifestIsHeld(rows: seq<Item>)
    ensures AllHeld(rows, ManifestOf(rows))
  {
  }

  lemma ExportsLater(s: Sys, s': Sys)
    requires ExportsHeld(s) && EvidenceEvolves(s, s') && s'.exports <= s.exports
    ensures ExportsHeld(s')
  {
  }

  lemma ExportsKept(c: Config, s: Sys, step: Step, s': Sys)
    requires ExportsHeld(s) && EvidenceEvolves(s, s') && Next(c, s, step, s')
    ensures ExportsHeld(s')
  {
    hide AllHeld, EvidenceEvolves, Rows, CreateStep, UpdateStep, AttachStep, ProofpackStep, EventStep,
      RemindersService.KeyMarkStep, AuditService.LogStep, ReviewStep, SnapshotStep, ReportStep,
      AdjudicationService.EnsureStep, AdjudicationService.ResolveStep, BillingService.MarkStep, ManifestOf;
    if step.ReadForExport? {
      ManifestIsHeld(Rows(s.st.evidence, step.t));
    } else {
      hide ExportsHeld;
      assert s'.exports <= s.exports;
      ExportsLater(s, s');
    }
  }

  lemma DrawnKept(c: Config, s: Sys, step: Step, s': Sys)
    requires s.owner.Keys <= s.drawn && Next(c, s, step, s')
    ensures s'.owner.Keys <= s'.drawn && s.drawn <= s'.drawn
  {
  }

  /** An identifier that was drawn for a tenant stays with it. */
  predicate OwnersStay(owner: map<string, string>, owner': map<string, string>) {
    forall id :: id in owner ==> id in owner' && owner'[id] == owner[id]
  }

  lemma OwnersKept(c: Config, s: Sys, step: Step, s': Sys)
    requires s.owner.Keys <= s.drawn && Next(c, s, step, s')
    ensures OwnersStay(s.owner, s'.owner)
  {
    if !step.CreateItem? {
      OwnersUntouched(c, s, step, s');
    }
  }

  lemma OwnersUntouched(c: Config, s: Sys, step: Step, s': Sys)
    requires Next(c, s, step, s') && !step.CreateItem?
    ensures s'.owner == s.owner
  {
  }

  lemma OwnedStays(owner: map<string, string>, owner': map<string, string>, t: string, rows: seq<Item>)
    requires Owned(owner, t, rows) && OwnersStay(owner, owner')
    ensures Owned(owner', t, rows)
  {
  }

  /** Every step keeps the invariant, and moves the rows of every tenant on. */
  lemma EvidenceKept(c: Config, s: Sys, step: Step, s': Sys)
    requires EvidenceOk(c, s) && Next(c, s, step, s')
    ensures EvidenceOk(c, s') && EvidenceEvolves(s, s')
  {
    hide Next, ItemsOk, FilesHeld, ManifestsHeld, RowsEvolve, ExportsHeld, Rows;
    forall u
      ensures TenantOk(c, s'.owner, u, Rows(s'.st.evidence, u), Rows(s'.st.files, u), Rows(s'.st.proofpacks, u))
      ensures RowsEvolve(Rows(s.st.evidence, u), Rows(s'.st.evidence, u))
    {
      assert TenantOk(c, s.owner, u, Rows(s.st.evidence, u), Rows(s.st.files, u), Rows(s.st.proofpacks, u));
      ItemsKept(c, s, step, s', u);
      RefsKept(c, s, step, s', u);
    }
    ExportsKept(c, s, step, s');
    DrawnKept(c, s, step, s');
  }

  lemma EvidenceAtStart(c: Config)
    ensures EvidenceOk(c, START)
  {
  }
}

/** The mapping editor of the evidence graph page. */
module MappingEditor {
  import Text
  import opened Records
  import opened References
  import opened Evidence
  import Store
  import opened EvidenceService
  import OperationsService

  datatype MappingResult = IdRequired | EvidenceNotFound | Saved(r: UpdateResult)

  /** The item the form submits: the stored one with its reference lists replaced. */
  function Edited(it: Item, controls: string, vendors: string, risks: string, fold: Fold): Item {
    it.(controlRefs := SplitRefs(controls, fold), vendorRefs := SplitRefs(vendors, fold),
      riskRefs := SplitRefs(risks, fold))
  }

  const MAPPINGS_EVENT := "evidence.mappings.updated"

  function MappingsEvent(tenantID: string, id: string, at: Instant): OperationalEvent {
    OperationalEvent(tenantID, MAPPINGS_EVENT, "Evidence mappings updated", id, at)
  }

  /** The update, and after a successful one its event, if there is an operations service. */
  ghost predicate MappingStep(before: Store.State, after: Store.State, tenantID: string, id: string, it: Item,
          now: Instant, stamp: Instant, operations: bool, at: Instant, fold: Fold) {
    exists mid ::
      && UpdateStep(before, mid, tenantID, id, it, now, stamp, fold)
      && if operations && UpdateOutcome(Rows(before.evidence, tenantID), id, it, now, fold) == Updated
         then OperationsService.EventStep(mid, after, tenantID, MappingsEvent(tenantID, id, at))
         else after == mid
  }

  lemma MappingsLogged(before: Store.State, mid: Store.State, after: Store.State, tenantID: string, id: string,
          it: Item, now: Instant, stamp: Instant, at: Instant, fold: Fold)
    requires UpdateStep(before, mid, tenantID, id, it, now, stamp, fold)
    requires OperationsService.EventStep(mid, after, tenantID, MappingsEvent(tenantID, id, at))
    ensures Rows(after.events, tenantID)
            == [OperationalEvent(tenantID, "evidence.mappings.updated", "Evidence mappings updated", id, at)]
               + Rows(before.events, tenantID)
  {
    hide RowsAfterUpdate, OperationsService.Reached, OperationsService.MilestonesAt;
  }

  /** `updateEvidenceMappings` without its HTTP parts: get, replace the references, update, log. */
  method UpdateMappings(store: Store.MemoryStore, tenantID: string, formID: string, controls: string, vendors: string,
          risks: string, operations: bool, now: Instant, stamp: Instant, at: Instant, fold: Fold)
    returns (r: MappingResult)
    modifies store
    ensures var rows, id := Rows(old(store.st).evidence, tenantID), Text.TrimSpace(formID);
            var i := ItemIndex(rows, id);
            if id == "" then r == IdRequired && store.st == old(store.st)
            else if i == |rows| then r == EvidenceNotFound && store.st == old(store.st)
            else
              var it := Edited(rows[i], controls, vendors, risks, fold);
              && r == Saved(UpdateOutcome(rows, id, it, now, fold))
              && MappingStep(old(store.st), store.st, tenantID, id, it, now, stamp, operations, at, fold)
              && (r != Saved(Updated) ==> store.st == old(store.st))
              && (r == Saved(Updated) && operations ==>
                    Rows(store.st.events, tenantID)
                    == [OperationalEvent(tenantID, "evidence.mappings.updated", "Evidence mappings updated", id, at)]
                       + Rows(old(store.st).events, tenantID))
  {
    hide DeriveStatus, NormalizeRefs, SplitRefs, Validate, Text.TrimSpace, UpdateOutcome, UpdateStep,
      OperationsService.EventStep;
    var id := Text.TrimSpace(formID);
    if id == "" {
      return IdRequired;
    }
    var rows := Rows(store.st.evidence, tenantID);
    var i := ItemIndex(rows, id);
    if i == |rows| {
      return EvidenceNotFound;
    }
    var item := rows[i];
    var cs := SplitRefsLoop(controls, fold);
    var vs := SplitRefsLoop(vendors, fold);
    var rs := SplitRefsLoop(risks, fold);
    item := item.(controlRefs := cs, vendorRefs := vs, riskRefs := rs);
    var u := Update(store, tenantID, id, item, now, stamp, fold);
    ghost var mid := store.st;
    assert UpdateStep(old(store.st), mid, tenantID, id, item, now, stamp, fold);
    if u == Updated && operations {
      OperationsService.RecordEvent(store, tenantID, MAPPINGS_EVENT, "Evidence mappings updated", id, at);
      MappingsLogged(old(store.st), mid, store.st, tenantID, id, item, now, stamp, at, fold);
    }
    r := Saved(u);
  }

  predicate Printable(refs: seq<string>) {
    forall k :: 0 <= k < |refs| ==> NoComma(refs[k]) && SingleSpaced(refs[k])
  }

  /** Main result: saving the editor's form as it was printed keeps the references of a stored item exactly when
      none of them has a comma or white space other than single blanks. */
  lemma SaveAsPrinted(it: Item, now: Instant, fold: Fold)
    requires NormalItem(it, fold)
    ensures var saved := Prepared(Edited(it, Render(it.controlRefs), Render(it.vendorRefs), Render(it.riskRefs),
            fold), now, fold);
            (saved.controlRefs == it.controlRefs && saved.vendorRefs == it.vendorRefs && saved.riskRefs == it.riskRefs)
            <==> Printable(it.controlRefs) && Printable(it.vendorRefs) && Printable(it.riskRefs)
  {
    hide SplitRefs, NormalizeRefs, Render, Normal, NoComma, SingleSpaced, DeriveStatus;
    SaveWithoutEdits(it.controlRefs, fold);
    SaveWithoutEdits(it.vendorRefs, fold);
    SaveWithoutEdits(it.riskRefs, fold);
  }

  lemma EditKeepsValid(it: Item, tenantID: string, controls: string, vendors: string, risks: string, now: Instant,
          fold: Fold)
    requires ItemOk(tenantID, it, fold)
    ensures Validate(Prepared(Edited(it, controls, vendors, risks, fold), now, fold)) == None
  {
    hide NormalizeRefs, SplitRefs, DeriveStatus, NormalItem, Text.TrimSpace, HasBlankRef;
    PreparedItems(Edited(it, controls, vendors, risks, fold), now, fold);
  }

  /** Main result: for an item of a valid store the editor always saves; and the form as it was printed keeps the
      references exactly when none of them has a comma or white space other than single blanks. */
  lemma PrintedFormIsSaved(rows: seq<Item>, tenantID: string, id: string, limit: int, now: Instant, stamp: Instant,
          fold: Fold)
    requires RowsOk(tenantID, rows, limit, fold) && ItemIndex(rows, id) < |rows|
    ensures var i := ItemIndex(rows, id);
            var it := Edited(rows[i], Render(rows[i].controlRefs), Render(rows[i].vendorRefs),
              Render(rows[i].riskRefs), fold);
            var after := RowsAfterUpdate(rows, tenantID, id, it, now, stamp, fold);
            && UpdateOutcome(rows, id, it, now, fold) == Updated
            && |after| == |rows|
            && (SameReferences(after[i], rows[i])
                <==> Printable(rows[i].controlRefs) && Printable(rows[i].vendorRefs) && Printable(rows[i].riskRefs))
  {
    hide NormalizeRefs, SplitRefs, Render, DeriveStatus, Validate, Printable;
    var i := ItemIndex(rows, id);
    assert ItemOk(tenantID, rows[i], fold);
    EditKeepsValid(rows[i], tenantID, Render(rows[i].controlRefs), Render(rows[i].vendorRefs),
      Render(rows[i].riskRefs), now, fold);
    SaveAsPrinted(rows[i], now, fold);
  }

  predicate SameReferences(a: Item, b: Item) {
    a.controlRefs == b.controlRefs && a.vendorRefs == b.vendorRefs && a.riskRefs == b.riskRefs
  }
}

/** Evidence records: create, update, attach a file, edit mappings, and export a proofpack manifest. */
module EvidenceService {
  import Text
  import opened Records
  import opened References
  import opened Evidence
  import opened Store

  // ---- Create ---------------------------------------------------------------

  datatype CreateResult = Created(id: string) | LimitReached | CreateRejected(why: Rejection)

  function CreateOutcome(rows: seq<Item>, it: Item, limit: int, now: Instant, newID: string, fold: Fold): CreateResult {
    if |rows| >= limit then LimitReached
    else match Validate(Prepared(it, now, fold))
      case Some(why) => CreateRejected(why)
      case None => Created(newID)
  }

  function NewItem(it: Item, tenantID: string, now: Instant, stamp: Instant, newID: string, fold: Fold): Item {
    Prepared(it, now, fold).(id := newID, tenantID := tenantID, createdAt := stamp, updatedAt := stamp)
  }

  function RowsAfterCreate(rows: seq<Item>, tenantID: string, it: Item, limit: int, now: Instant, stamp: Instant,
          newID: string, fold: Fold): seq<Item> {
    if CreateOutcome(rows, it, limit, now, newID, fold).Created?
      then [NewItem(it, tenantID, now, stamp, newID, fold)] + rows else rows
  }

  /** The whole effect of one call. */
  ghost predicate CreateStep(before: State, after: State, tenantID: string, it: Item, limit: int, now: Instant,
          stamp: Instant, newID: string, fold: Fold) {
    && RowsSet(before.evidence, after.evidence, tenantID,
               RowsAfterCreate(Rows(before.evidence, tenantID), tenantID, it, limit, now, stamp, newID, fold))
    && after == before.(evidence := after.evidence)
  }

  method Create(store: MemoryStore, tenantID: string, item: Item, limit: int, now: Instant, stamp: Instant,
          newID: string, fold: Fold)
    returns (r: CreateResult)
    modifies store
    ensures r == CreateOutcome(Rows(old(store.st).evidence, tenantID), item, limit, now, newID, fold)
    ensures CreateStep(old(store.st), store.st, tenantID, item, limit, now, stamp, newID, fold)
    ensures !r.Created? ==> store.st == old(store.st)
  {
    hide DeriveStatus, NormalizeRefs, Validate;
    var rows := Rows(store.st.evidence, tenantID);
    if |rows| >= limit {
      return LimitReached;
    }
    var it := Normalize(item, now, fold);
    var problem := Validate(it);
    if problem.Some? {
      return CreateRejected(problem.value);
    }
    it := it.(id := newID, tenantID := tenantID, createdAt := stamp, updatedAt := stamp);
    store.st := store.st.(evidence := store.st.evidence[tenantID := [it] + rows]);
    r := Created(newID);
  }

  method Normalize(item: Item, now: Instant, fold: Fold) returns (it: Item)
    ensures it == Prepared(item, now, fold)
  {
    hide DeriveStatus, NormalizeRefs;
    it := item.(status := DeriveStatus(item.status, item.expiryDate, item.reminderDaysBefore, now));
    var controls := NormalizeRefsLoop(it.controlRefs, fold);
    var vendors := NormalizeRefsLoop(it.vendorRefs, fold);
    var risks := NormalizeRefsLoop(it.riskRefs, fold);
    it := it.(controlRefs := controls, vendorRefs := vendors, riskRefs := risks);
  }

  // ---- Update ---------------------------------------------------------------

  /** The index of the item with this identifier, or the length when there is none. */
  function ItemIndex(rows: seq<Item>, id: string): (i: nat)
    ensures i <= |rows|
    ensures i < |rows| ==> rows[i].id == id
    ensures forall k :: 0 <= k < i ==> rows[k].id != id
  {
    if rows == [] || rows[0].id == id then 0 else 1 + ItemIndex(rows[1..], id)
  }

  datatype UpdateResult = Updated | UpdateRejected(why: Rejection) | ItemNotFound

  function UpdateOutcome(rows: seq<Item>, id: string, it: Item, now: Instant, fold: Fold): UpdateResult {
    match Validate(Prepared(it, now, fold))
    case Some(why) => UpdateRejected(why)
    case None => if ItemIndex(rows, id) < |rows| then Updated else ItemNotFound
  }

  function RowsAfterUpdate(rows: seq<Item>, tenantID: string, id: string, it: Item, now: Instant, stamp: Instant,
          fold: Fold): seq<Item> {
    var i := ItemIndex(rows, id);
    if UpdateOutcome(rows, id, it, now, fold) != Updated then rows
    else rows[i := Prepared(it, now, fold).(id := id, tenantID := tenantID, createdAt := rows[i].createdAt,
      updatedAt := stamp)]
  }

  ghost predicate UpdateStep(before: State, after: State, tenantID: string, id: string, it: Item, now: Instant,
          stamp: Instant, fold: Fold) {
    && RowsSet(before.evidence, after.evidence, tenantID,
               RowsAfterUpdate(Rows(before.evidence, tenantID), tenantID, id, it, now, stamp, fold))
    && after == before.(evidence := after.evidence)
  }

  method Update(store: MemoryStore, tenantID: string, id: string, item: Item, now: Instant, stamp: Instant, fold: Fold)
    returns (r: UpdateResult)
    modifies store
    ensures r == UpdateOutcome(Rows(old(store.st).evidence, tenantID), id, item, now, fold)
    ensures UpdateStep(old(store.st), store.st, tenantID, id, item, now, stamp, fold)
    ensures r != Updated ==> store.st == old(store.st)
  {
    hide DeriveStatus, NormalizeRefs, Validate;
    var it := Normalize(item, now, fold);
    var problem := Validate(it);
    if problem.Some? {
      return UpdateRejected(problem.value);
    }
    var arr := Rows(store.st.evidence, tenantID);
    for i := 0 to |arr|
      invariant store.st == old(store.st)
      invariant forall k :: 0 <= k < i ==> arr[k].id != id
    {
      if arr[i].id == id {
        it := it.(id := id, tenantID := tenantID, createdAt := arr[i].createdAt, updatedAt := stamp);
        arr := arr[i := it];
        store.st := store.st.(evidence := store.st.evidence[tenantID := arr]);
        return Updated;
      }
    }
    r := ItemNotFound;
  }

  // ---- AttachFile -----------------------------------------------------------

  function RowsAfterAttach(rows: seq<Item>, id: string, filePath: string, stamp: Instant): seq<Item> {
    var i := ItemIndex(rows, id);
    if i == |rows| then rows else rows[i := rows[i].(sourceFilePath := filePath, updatedAt := stamp)]
  }

  function FilesAfterAttach(rows: seq<Item>, files: seq<EvidenceFile>, file: EvidenceFile): seq<EvidenceFile> {
    if ItemIndex(rows, file.evidenceID) == |rows| then files else files + [file]
  }

  ghost predicate AttachStep(before: State, after: State, tenantID: string, file: EvidenceFile, stamp: Instant) {
    var rows, files := Rows(before.evidence, tenantID), Rows(before.files, tenantID);
    && RowsSet(before.evidence, after.evidence, tenantID, RowsAfterAttach(rows, file.evidenceID, file.filePath, stamp))
    && RowsSet(before.files, after.files, tenantID, FilesAfterAttach(rows, files, file))
    && after == before.(evidence := after.evidence, files := after.files)
  }

  method AttachFile(store: MemoryStore, tenantID: string, id: string, filePath: string, contentType: string,
          sizeBytes: int, stamp: Instant, fileStamp: Instant)
    returns (found: bool)
    modifies store
    ensures found <==> ItemIndex(Rows(old(store.st).evidence, tenantID), id) < |Rows(old(store.st).evidence, tenantID)|
    ensures AttachStep(old(store.st), store.st, tenantID,
            EvidenceFile(id, filePath, contentType, sizeBytes, fileStamp), stamp)
    ensures !found ==> store.st == old(store.st)
  {
    var arr := Rows(store.st.evidence, tenantID);
    for i := 0 to |arr|
      invariant store.st == old(store.st)
      invariant forall k :: 0 <= k < i ==> arr[k].id != id
    {
      if arr[i].id == id {
        arr := arr[i := arr[i].(sourceFilePath := filePath, updatedAt := stamp)];
        var file := EvidenceFile(id, filePath, contentType, sizeBytes, fileStamp);
        store.st := store.st.(
          evidence := store.st.evidence[tenantID := arr],
          files := store.st.files[tenantID := Rows(store.st.files, tenantID) + [file]]);
        return true;
      }
    }
    found := false;
  }

  // ---- Proofpack export -----------------------------------------------------

  /** The manifest is read first, and recorded by a later write. */
  function ManifestOf(rows: seq<Item>): seq<string> {
    seq(|rows|, i requires 0 <= i < |rows| => rows[i].id)
  }

  ghost predicate ProofpackStep(before: State, after: State, tenantID: string, pack: Proofpack) {
    && RowsSet(before.proofpacks, after.proofpacks, tenantID, [pack] + Rows(before.proofpacks, tenantID))
    && after == before.(proofpacks := after.proofpacks)
  }

  method RecordProofpack(store: MemoryStore, tenantID: string, items: seq<Item>, id: string, stamp: Instant,
          hash: string)
    modifies store
    ensures ProofpackStep(old(store.st), store.st, tenantID, Proofpack(id, stamp, ManifestOf(items), hash))
    ensures var packs := Rows(store.st.proofpacks, tenantID);
            && packs != [] && packs[1..] == Rows(old(store.st).proofpacks, tenantID)
            && packs[0].id == id && packs[0].createdAt == stamp && |packs[0].evidenceIDs| == |items|
            && forall i :: 0 <= i < |items| ==> packs[0].evidenceIDs[i] == items[i].id
  {
    var evidenceIDs := [];
    for i := 0 to |items|
      invariant evidenceIDs == ManifestOf(items)[..i] && store.st == old(store.st)
    {
      evidenceIDs := evidenceIDs + [items[i].id];
    }
    assert evidenceIDs == ManifestOf(items);
    store.st := store.st.(proofpacks :=
      store.st.proofpacks[tenantID := [Proofpack(id, stamp, evidenceIDs, hash)] + Rows(store.st.proofpacks, tenantID)]);
  }

  // ---- What every run keeps -------------------------------------------------

  predicate ItemOk(tenantID: string, it: Item, fold: Fold) {
    Validate(it) == None && it.tenantID == tenantID && NormalItem(it, fold)
  }

  predicate RowsOk(tenantID: string, rows: seq<Item>, limit: int, fold: Fold) {
    && (forall i :: 0 <= i < |rows| ==> ItemOk(tenantID, rows[i], fold))
    && |rows| <= (if limit > 0 then limit else 0)
  }

  ghost predicate Has(rows: seq<Item>, id: string) {
    exists i :: 0 <= i < |rows| && rows[i].id == id
  }

  predicate DistinctItems(rows: seq<Item>) {
    forall i, j :: 0 <= i < j < |rows| ==> rows[i].id != rows[j].id
  }

  /** Rows are only added at the front; an item keeps its identifier and its creation time. */
  ghost predicate RowsEvolve(before: seq<Item>, after: seq<Item>) {
    && |before| <= |after|
    && forall i :: 0 <= i < |before| ==>
         after[|after| - |before| + i].id == before[i].id
           && after[|after| - |before| + i].createdAt == before[i].createdAt
  }

  lemma RowsEvolveOn(a: seq<Item>, b: seq<Item>, c: seq<Item>)
    requires RowsEvolve(a, b) && RowsEvolve(b, c)
    ensures RowsEvolve(a, c)
  {
  }

  lemma PreparedIsOk(it: Item, tenantID: string, now: Instant, stamp: Instant, created: Instant, id: string, fold: Fold)
    requires Validate(Prepared(it, now, fold)) == None
    ensures ItemOk(tenantID, Prepared(it, now, fold).(id := id, tenantID := tenantID, createdAt := created,
            updatedAt := stamp), fold)
  {
    hide NormalizeRefs, DeriveStatus, Normal, Text.TrimSpace;
    PreparedItems(it, now, fold);
  }

  lemma CreateKeepsRows(rows: seq<Item>, tenantID: string, it: Item, limit: int, now: Instant, stamp: Instant,
          newID: string, fold: Fold)
    requires RowsOk(tenantID, rows, limit, fold)
    ensures var after := RowsAfterCreate(rows, tenantID, it, limit, now, stamp, newID, fold);
            && RowsOk(tenantID, after, limit, fold) && RowsEvolve(rows, after)
            && (DistinctItems(rows) && !Has(rows, newID) ==> DistinctItems(after))
            && (forall id :: Has(after, id) ==> Has(rows, id) || id == newID)
  {
    hide Prepared, ItemOk, Validate;
    if CreateOutcome(rows, it, limit, now, newID, fold).Created? {
      PreparedIsOk(it, tenantID, now, stamp, stamp, newID, fold);
      var after := [NewItem(it, tenantID, now, stamp, newID, fold)] + rows;
      forall id | Has(after, id) ensures Has(rows, id) || id == newID {
        var i :| 0 <= i < |after| && after[i].id == id;
        assert i > 0 ==> rows[i - 1].id == id;
      }
    }
  }

  /** Replacing one item by one with its identifier and creation time. */
  lemma ReplaceKeepsRows(rows: seq<Item>, tenantID: string, i: nat, it: Item, limit: int, fold: Fold)
    requires RowsOk(tenantID, rows, limit, fold) && i < |rows|
    requires ItemOk(tenantID, it, fold) && it.id == rows[i].id && it.createdAt == rows[i].createdAt
    ensures var after := rows[i := it];
            && RowsOk(tenantID, after, limit, fold) && RowsEvolve(rows, after)
            && (DistinctItems(rows) ==> DistinctItems(after))
            && (forall id :: Has(after, id) ==> Has(rows, id))
  {
    hide ItemOk;
    var after := rows[i := it];
    forall id | Has(after, id) ensures Has(rows, id) {
      var k :| 0 <= k < |after| && after[k].id == id;
      assert rows[k].id == id;
    }
  }

  lemma UnchangedRows(rows: seq<Item>)
    ensures RowsEvolve(rows, rows)
  {
  }

  lemma UpdateKeepsRows(rows: seq<Item>, tenantID: string, id: string, it: Item, limit: int, now: Instant,
          stamp: Instant, fold: Fold)
    requires RowsOk(tenantID, rows, limit, fold)
    ensures var after := RowsAfterUpdate(rows, tenantID, id, it, now, stamp, fold);
            && RowsOk(tenantID, after, limit, fold) && RowsEvolve(rows, after)
            && (DistinctItems(rows) ==> DistinctItems(after))
            && (forall x :: Has(after, x) ==> Has(rows, x))
  {
    hide Prepared, ItemOk, Validate, Has, RowsOk;
    UnchangedRows(rows);
    if UpdateOutcome(rows, id, it, now, fold) == Updated {
      var i := ItemIndex(rows, id);
      PreparedIsOk(it, tenantID, now, stamp, rows[i].createdAt, id, fold);
      ReplaceKeepsRows(rows, tenantID, i,
        Prepared(it, now, fold).(id := id, tenantID := tenantID, createdAt := rows[i].createdAt, updatedAt := stamp),
          limit, fold);
    }
  }

  lemma AttachKeepsRows(rows: seq<Item>, tenantID: string, id: string, filePath: string, stamp: Instant, limit: int,
          fold: Fold)
    requires RowsOk(tenantID, rows, limit, fold)
    ensures var after := RowsAfterAttach(rows, id, filePath, stamp);
            && RowsOk(tenantID, after, limit, fold) && RowsEvolve(rows, after)
            && (DistinctItems(rows) ==> DistinctItems(after))
            && (forall x :: Has(after, x) ==> Has(rows, x))
  {
    hide Has, NormalItem, Text.TrimSpace, HasBlankRef;
    UnchangedRows(rows);
    var i := ItemIndex(rows, id);
    if i < |rows| {
      assert ItemOk(tenantID, rows[i], fold);
      ReplaceKeepsRows(rows, tenantID, i, rows[i].(sourceFilePath := filePath, updatedAt := stamp), limit, fold) by {
        AttachedIsOk(rows[i], tenantID, filePath, stamp, fold);
      }
    }
  }

  lemma AttachedIsOk(it: Item, tenantID: string, filePath: string, stamp: Instant, fold: Fold)
    requires ItemOk(tenantID, it, fold)
    ensures ItemOk(tenantID, it.(sourceFilePath := filePath, updatedAt := stamp), fold)
  {
  }

  // ---- What is stored -------------------------------------------------------

  /** The stored item is the submitted one, but for its status, its references and what the store assigns. */
  predicate StoredAs(it: Item, x: Item, tenantID: string, id: string, created: Instant, updated: Instant) {
    && x == it.(id := id, tenantID := tenantID, createdAt := created, updatedAt := updated, status := x.status,
                controlRefs := x.controlRefs, vendorRefs := x.vendorRefs, riskRefs := x.riskRefs)
  }

  /** The stored references are the submitted ones as `NormalizeKeepsFirsts` describes. */
  predicate RefsStored(it: Item, x: Item, fold: Fold) {
    && x.controlRefs == NormalizeRefs(it.controlRefs, fold) && x.vendorRefs == NormalizeRefs(it.vendorRefs, fold)
    && x.riskRefs == NormalizeRefs(it.riskRefs, fold)
  }

  /** The stored status by calendar days: `expired` exactly if the expiry day is over, `expiring` exactly if it lies
      between today and the end of the item's window, `active` exactly if there is no expiry or a later one. Missing
      and archived items keep their word. */
  predicate StatusStored(submitted: string, x: Item, now: Instant) {
    var today := DayOf(now);
    if submitted == "missing" || submitted == "archived" then x.status == submitted
    else
      && (x.status == "expired" <==> x.expiryDate.Some? && DayOf(x.expiryDate.value) < today)
      && (x.status == "expiring" <==> x.expiryDate.Some?
                                      && today <= DayOf(x.expiryDate.value) <= today + x.reminderDaysBefore)
      && (x.status == "active" <==> x.expiryDate.None?
                                    || DayOf(x.expiryDate.value) > today + x.reminderDaysBefore)
  }

  /** A submitted item is accepted if its title, category, window and dates are in order. */
  predicate Acceptable(it: Item) {
    && !Problem(it, TitleRequired) && !Problem(it, InvalidCategory) && !Problem(it, ReminderOutOfRange)
    && !Problem(it, ExpiryBeforeIssue)
  }

  /** The first of these problems, in the order in which they are looked for. */
  predicate FirstProblem(it: Item, why: Rejection) {
    && Problem(it, why) && why !in {InvalidStatus, BlankReference}
    && forall w :: w !in {InvalidStatus, BlankReference} && Turn(w) < Turn(why) ==> !Problem(it, w)
  }

  /** A new row in front. */
  predicate RowAdded(rows: seq<Item>, after: seq<Item>, it: Item, tenantID: string, id: string, now: Instant,
          stamp: Instant, fold: Fold) {
    && |after| == |rows| + 1 && after[1..] == rows
    && StoredAs(it, after[0], tenantID, id, stamp, stamp) && RefsStored(it, after[0], fold)
    && StatusStored(it.status, after[0], now)
  }

  /** The first row with the identifier replaced, which keeps its time of creation. */
  predicate RowReplaced(rows: seq<Item>, after: seq<Item>, it: Item, tenantID: string, id: string, now: Instant,
          stamp: Instant, fold: Fold) {
    exists i :: 0 <= i < |rows| == |after| && rows[i].id == id && (forall k :: 0 <= k < i ==> rows[k].id != id)
      && after[..i] == rows[..i] && after[i + 1..] == rows[i + 1..]
      && StoredAs(it, after[i], tenantID, id, rows[i].createdAt, stamp) && RefsStored(it, after[i], fold)
      && StatusStored(it.status, after[i], now)
  }

  lemma PreparedProblems(it: Item, now: Instant, fold: Fold)
    ensures Validate(Prepared(it, now, fold)) == None <==> Acceptable(it)
    ensures forall why :: Validate(Prepared(it, now, fold)) == Some(why) ==> FirstProblem(it, why)
  {
    hide Validate, NormalizeRefs, DeriveStatus, NormalItem, SomeBlank;
    var p := Prepared(it, now, fold);
    PreparedItems(it, now, fold);
    forall why
      ensures why !in {InvalidStatus, BlankReference} ==> Problem(p, why) == Problem(it, why)
      ensures Validate(p) == None <==> forall w :: !Problem(p, w)
      ensures Validate(p) == Some(why) <==> Problem(p, why) && forall w :: Turn(w) < Turn(why) ==> !Problem(p, w)
    {
      ValidateMeans(p, why);
    }
    NoOtherProblem(p);
  }

  lemma NoOtherProblem(p: Item)
    requires Validate(p) !in {Some(InvalidStatus), Some(BlankReference)}
    ensures Validate(p) == None <==> Acceptable(p)
  {
    hide Validate, SomeBlank;
    forall why
      ensures Validate(p) == None <==> forall w :: !Problem(p, w)
      ensures Validate(p) == Some(why) <==> Problem(p, why) && forall w :: Turn(w) < Turn(why) ==> !Problem(p, w)
    {
      ValidateMeans(p, why);
    }
  }

  lemma PreparedIsStored(it: Item, tenantID: string, id: string, created: Instant, updated: Instant, now: Instant,
          fold: Fold)
    requires Acceptable(it)
    ensures var x := Prepared(it, now, fold).(id := id, tenantID := tenantID, createdAt := created,
                                              updatedAt := updated);
            StoredAs(it, x, tenantID, id, created, updated) && RefsStored(it, x, fold)
            && StatusStored(it.status, x, now)
  {
    hide NormalizeRefs, DeriveStatus, Text.AllSpace;
    StatusMeans(it.status, it.expiryDate, it.reminderDaysBefore, now);
  }

  /** Main result: what a call of `Create` answers and stores. It succeeds exactly below the limit and for an acceptable
      item; the new row is that item with the status of its dates, its distinct references, and equal times. */
  lemma CreatedItem(rows: seq<Item>, tenantID: string, it: Item, limit: int, now: Instant, stamp: Instant,
          newID: string, fold: Fold)
    ensures var r, after := CreateOutcome(rows, it, limit, now, newID, fold),
              RowsAfterCreate(rows, tenantID, it, limit, now, stamp, newID, fold);
            && (r == LimitReached <==> |rows| >= limit)
            && (r == Created(newID) <==> |rows| < limit && Acceptable(it))
            && (r.CreateRejected? ==> FirstProblem(it, r.why))
            && (r != Created(newID) ==> after == rows)
            && (r == Created(newID) ==> RowAdded(rows, after, it, tenantID, newID, now, stamp, fold))
  {
    hide Validate, Prepared, Acceptable, FirstProblem, StoredAs, RefsStored, StatusStored;
    PreparedProblems(it, now, fold);
    if Acceptable(it) {
      PreparedIsStored(it, tenantID, newID, stamp, stamp, now, fold);
    }
  }

  /** Main result: what a call of `Update` answers and stores. */
  lemma UpdatedItem(rows: seq<Item>, tenantID: string, id: string, it: Item, now: Instant, stamp: Instant, fold: Fold)
    ensures var r, after := UpdateOutcome(rows, id, it, now, fold),
              RowsAfterUpdate(rows, tenantID, id, it, now, stamp, fold);
            && (r.UpdateRejected? <==> !Acceptable(it))
            && (r.UpdateRejected? ==> FirstProblem(it, r.why))
            && (r == Updated <==> Acceptable(it) && Has(rows, id))
            && (r != Updated ==> after == rows)
            && (r == Updated ==> RowReplaced(rows, after, it, tenantID, id, now, stamp, fold))
  {
    hide Validate, Prepared, Acceptable, FirstProblem, StoredAs, RefsStored, StatusStored;
    PreparedProblems(it, now, fold);
    var i := ItemIndex(rows, id);
    if Has(rows, id) {
      var k :| 0 <= k < |rows| && rows[k].id == id;
      assert i < |rows|;
    }
    if Acceptable(it) && i < |rows| {
      PreparedIsStored(it, tenantID, id, rows[i].createdAt, stamp, now, fold);
      var after := RowsAfterUpdate(rows, tenantID, id, it, now, stamp, fold);
      assert after[..i] == rows[..i] && after[i + 1..] == rows[i + 1..];
    }
  }

  /** What attaching a file stores: the path and the time on the first item with the identifier, and the file at the
      end. */
  lemma AttachedItem(rows: seq<Item>, files: seq<EvidenceFile>, file: EvidenceFile, stamp: Instant)
    ensures var after, more := RowsAfterAttach(rows, file.evidenceID, file.filePath, stamp),
              FilesAfterAttach(rows, files, file);
            if Has(rows, file.evidenceID) then
              more == files + [file]
                && exists i :: 0 <= i < |rows| && rows[i].id == file.evidenceID
                     && (forall k :: 0 <= k < i ==> rows[k].id != file.evidenceID)
                     && after == rows[i := rows[i].(sourceFilePath := file.filePath, updatedAt := stamp)]
            else after == rows && more == files
  {
    var i := ItemIndex(rows, file.evidenceID);
    if Has(rows, file.evidenceID) {
      var k :| 0 <= k < |rows| && rows[k].id == file.evidenceID;
      assert i < |rows|;
    }
  }
}

/** The daily reminder run: select and mark under the lock, then send and log one by one. */
module RemindersService {
  import opened Records
  import Sorting
  import opened Evidence
  import opened Store
  import AuditService

  // ---- Selection ------------------------------------------------------------

  function KeyFor(it: Item, now: Instant): ReminderKey {
    ReminderKey(it.id, DayOf(now))
  }

  function KeysFor(items: seq<Item>, now: Instant): seq<ReminderKey> {
    seq(|items|, k requires 0 <= k < |items| => KeyFor(items[k], now))
  }

  /** `keys` are distinct and new, and they are what was added. */
  predicate Marks(before: set<ReminderKey>, after: set<ReminderKey>, keys: seq<ReminderKey>) {
    && (forall k :: 0 <= k < |keys| ==> keys[k] !in before)
    && (forall j, k :: 0 <= j < k < |keys| ==> keys[j] != keys[k])
    && after == before + (set k | 0 <= k < |keys| :: keys[k])
  }

  lemma MarksSnoc(before: set<ReminderKey>, after: set<ReminderKey>, keys: seq<ReminderKey>, key: ReminderKey)
    requires Marks(before, after, keys) && key !in after
    ensures Marks(before, after + {key}, keys + [key])
  {
    var next := keys + [key];
    assert forall k :: 0 <= k < |keys| ==> next[k] == keys[k];
    assert next[|keys|] == key;
  }

  ghost predicate HasItem(evidence: map<string, seq<Item>>, it: Item) {
    exists t :: t in evidence && it in evidence[t]
  }

  ghost predicate AllDue(evidence: map<string, seq<Item>>, items: seq<Item>, now: Instant) {
    forall k :: 0 <= k < |items| ==> ReminderDue(items[k], now) && HasItem(evidence, items[k])
  }

  /** Every item of the list that is due has a mark for the day. */
  predicate DueAreMarked(items: seq<Item>, marks: set<ReminderKey>, now: Instant) {
    forall k :: 0 <= k < |items| && ReminderDue(items[k], now) ==> KeyFor(items[k], now) in marks
  }

  /** Only due items of the store are selected, each for a free key; exactly their keys are now marked. */
  ghost predicate Selecting(before: State, after: State, now: Instant, selected: seq<Item>) {
    && after == before.(reminderSent := after.reminderSent)
    && Marks(before.reminderSent, after.reminderSent, KeysFor(selected, now))
    && AllDue(before.evidence, selected, now)
  }

  /** And no due item of any tenant is left without a mark for the day. */
  ghost predicate SelectStep(before: State, after: State, now: Instant, selected: seq<Item>) {
    && Selecting(before, after, now, selected)
    && forall t :: t in before.evidence ==> DueAreMarked(before.evidence[t], after.reminderSent, now)
  }

  // Selecting an item is a check and a mark.

  predicate Selectable(st: State, it: Item, now: Instant) {
    ReminderDue(it, now) && KeyFor(it, now) !in st.reminderSent
  }

  ghost predicate KeyMarkStep(before: State, after: State, key: ReminderKey) {
    after == before.(reminderSent := before.reminderSent + {key})
  }

  method CheckItem(store: MemoryStore, it: Item, now: Instant) returns (free: bool)
    ensures free <==> Selectable(store.st, it, now)
  {
    if it.ownerEmail == "" || it.expiryDate.None? {
      return false;
    }
    if it.expiryDate.value < now || it.expiryDate.value > AddDays(now, it.reminderDaysBefore) {
      return false;
    }
    return ReminderKey(it.id, DayOf(now)) !in store.st.reminderSent;
  }

  method MarkItem(store: MemoryStore, key: ReminderKey)
    modifies store
    ensures KeyMarkStep(old(store.st), store.st, key)
  {
    store.st := store.st.(reminderSent := store.st.reminderSent + {key});
  }

  method SelectItem(store: MemoryStore, it: Item, now: Instant, toSend: seq<Item>, ghost before: State)
          returns (out: seq<Item>)
    requires Selecting(before, store.st, now, toSend) && HasItem(before.evidence, it)
    modifies store
    ensures Selecting(before, store.st, now, out)
    ensures old(store.st).reminderSent <= store.st.reminderSent
    ensures ReminderDue(it, now) ==> KeyFor(it, now) in store.st.reminderSent
  {
    hide HasItem, Marks, DayOf, ReminderDue;
    var free := CheckItem(store, it, now);
    if !free {
      return toSend;
    }
    var k := KeyFor(it, now);
    MarksSnoc(before.reminderSent, store.st.reminderSent, KeysFor(toSend, now), k);
    MarkItem(store, k);
    out := toSend + [it];
    assert KeysFor(out, now) == KeysFor(toSend, now) + [k];
  }

  method SelectTenant(store: MemoryStore, tenantID: string, now: Instant, toSend: seq<Item>, ghost before: State)
          returns (out: seq<Item>)
    requires Selecting(before, store.st, now, toSend) && tenantID in before.evidence
    modifies store
    ensures Selecting(before, store.st, now, out)
    ensures old(store.st).reminderSent <= store.st.reminderSent
    ensures DueAreMarked(before.evidence[tenantID], store.st.reminderSent, now)
  {
    hide ReminderDue, Marks, AllDue, KeyFor;
    out := toSend;
    var items := store.st.evidence[tenantID];
    for i := 0 to |items|
      invariant Selecting(before, store.st, now, out)
      invariant old(store.st).reminderSent <= store.st.reminderSent
      invariant DueAreMarked(items[..i], store.st.reminderSent, now)
    {
      assert HasItem(before.evidence, items[i]);
      out := SelectItem(store, items[i], now, out, before);
    }
    assert items[..|items|] == items;
  }

  /** The collecting part of `Run`. Tenants come in any order. */
  method Select(store: MemoryStore, now: Instant) returns (toSend: seq<Item>)
    modifies store
    ensures SelectStep(old(store.st), store.st, now, toSend)
  {
    hide ReminderDue, AllDue, KeyFor;
    ghost var before := store.st;
    toSend := [];
    NothingSelected(before, now);
    var remaining := store.st.evidence.Keys;
    while remaining != {}
      invariant remaining <= before.evidence.Keys
      invariant Selecting(before, store.st, now, toSend)
      invariant forall t :: t in before.evidence && t !in remaining ==>
                DueAreMarked(before.evidence[t], store.st.reminderSent, now)
      decreases |remaining|
    {
      var t :| t in remaining;
      toSend := SelectTenant(store, t, now, toSend, before);
      remaining := remaining - {t};
    }
  }

  lemma NothingSelected(st: State, now: Instant)
    ensures Selecting(st, st, now, [])
  {
  }

  /** An address, and an expiry between now and the item's number of days ahead. */
  predicate InWindow(it: Item, now: Instant) {
    && it.ownerEmail != "" && it.expiryDate.Some?
    && now <= it.expiryDate.value <= now + it.reminderDaysBefore * 86_400_000_000_000
  }

  /** What one selection does. Its items are stored, in their windows, and not marked before; they are marked for the
      day and nothing else is; and no stored item in its window is left without a mark. */
  lemma SelectionMeans(before: State, after: State, now: Instant, selected: seq<Item>)
    requires SelectStep(before, after, now, selected)
    ensures after == before.(reminderSent := after.reminderSent)
    ensures forall k :: 0 <= k < |selected| ==>
              HasItem(before.evidence, selected[k]) && InWindow(selected[k], now)
    ensures forall key :: key in after.reminderSent <==>
              || key in before.reminderSent
              || exists k :: 0 <= k < |selected| && key == ReminderKey(selected[k].id, now / 86_400_000_000_000)
    ensures forall k :: 0 <= k < |selected| ==>
              ReminderKey(selected[k].id, now / 86_400_000_000_000) !in before.reminderSent
    ensures forall j, k :: 0 <= j < k < |selected| ==> selected[j].id != selected[k].id
    ensures forall t, i :: t in before.evidence && 0 <= i < |before.evidence[t]| && InWindow(before.evidence[t][i], now)
              ==> ReminderKey(before.evidence[t][i].id, now / 86_400_000_000_000) in after.reminderSent
  {
    hide HasItem, ReminderDue, InWindow;
    var keys := KeysFor(selected, now);
    forall k | 0 <= k < |selected|
      ensures keys[k] == ReminderKey(selected[k].id, now / 86_400_000_000_000) && InWindow(selected[k], now)
    {
      DueIsInWindow(selected[k], now);
    }
    forall t, i | t in before.evidence && 0 <= i < |before.evidence[t]| && InWindow(before.evidence[t][i], now)
      ensures ReminderKey(before.evidence[t][i].id, now / 86_400_000_000_000) in after.reminderSent
    {
      DueIsInWindow(before.evidence[t][i], now);
      assert DueAreMarked(before.evidence[t], after.reminderSent, now);
    }
  }

  lemma DueIsInWindow(it: Item, now: Instant)
    ensures ReminderDue(it, now) <==> InWindow(it, now)
  {
    DueMeans(it, now);
  }

  /** Every selected item is, by whole days, expiring at the instant of the selection unless it is parked. */
  lemma SelectedAreExpiring(before: State, after: State, now: Instant, selected: seq<Item>)
    requires SelectStep(before, after, now, selected)
    ensures forall k :: 0 <= k < |selected| ==>
              var it := selected[k];
              DeriveStatus(it.status, it.expiryDate, it.reminderDaysBefore, now) ==
              if it.status == "missing" || it.status == "archived" then it.status else "expiring"
  {
    hide HasItem, DeriveStatus, Marks;
    forall k | 0 <= k < |selected|
      ensures var it := selected[k];
              DeriveStatus(it.status, it.expiryDate, it.reminderDaysBefore, now) ==
              if it.status == "missing" || it.status == "archived" then it.status else "expiring"
    {
      DueMeansExpiring(selected[k], now);
    }
  }

  // ---- Sending --------------------------------------------------------------

  const REMINDER_ACTION := "reminder.sent"

  function Metadata(delivered: bool): string {
    if delivered then "{\"channel\":\"email\",\"status\":\"sent\"}" else "{\"channel\":\"email\",\"status\":\"failed\"}"
  }

  function ReminderEntry(it: Item, delivered: bool, now: Instant): AuditEntry {
    AuditEntry(it.tenantID, "", REMINDER_ACTION, "evidence_item", it.id, Metadata(delivered), now)
  }

  /** The entries of a run, one for each selected item. */
  function Attempts(toSend: seq<Item>, delivered: nat -> bool, clock: nat -> Instant): seq<AuditEntry> {
    seq(|toSend|, k requires 0 <= k < |toSend| => ReminderEntry(toSend[k], delivered(k), clock(k)))
  }

  predicate WasSent(e: AuditEntry) {
    e.metadata == Metadata(true)
  }

  lemma SentMeansDelivered(it: Item, delivered: bool, now: Instant)
    ensures WasSent(ReminderEntry(it, delivered, now)) == delivered
  {
  }

  /** The log entry of an attempt, with its text. */
  predicate ReportsAttempt(e: AuditEntry, it: Item, delivered: bool, at: Instant) {
    && e.tenantID == it.tenantID && e.userID == "" && e.action == "reminder.sent"
    && e.entityType == "evidence_item" && e.entityID == it.id && e.createdAt == at
    && (delivered ==> e.metadata == "{\"channel\":\"email\",\"status\":\"sent\"}")
    && (!delivered ==> e.metadata == "{\"channel\":\"email\",\"status\":\"failed\"}")
  }

  lemma EntryReports(it: Item, delivered: bool, now: Instant)
    ensures ReportsAttempt(ReminderEntry(it, delivered, now), it, delivered, now)
  {
  }

  /** What the entries of a run say, and how many say that the reminder was sent, in terms of the mailer's answers. */
  lemma AttemptsMean(toSend: seq<Item>, delivered: nat -> bool, clock: nat -> Instant)
    ensures |Attempts(toSend, delivered, clock)| == |toSend|
    ensures forall k :: 0 <= k < |toSend| ==>
              ReportsAttempt(Attempts(toSend, delivered, clock)[k], toSend[k], delivered(k), clock(k))
    ensures Sorting.Count(Attempts(toSend, delivered, clock), WasSent) == |set k: nat | k < |toSend| && delivered(k)|
  {
    hide WasSent, ReportsAttempt, ReminderEntry;
    var entries := Attempts(toSend, delivered, clock);
    Sorting.CountIsPlaces(entries, WasSent);
    forall k: nat | k < |toSend|
      ensures WasSent(entries[k]) == delivered(k)
      ensures ReportsAttempt(entries[k], toSend[k], delivered(k), clock(k))
    {
      SentMeansDelivered(toSend[k], delivered(k), clock(k));
      EntryReports(toSend[k], delivered(k), clock(k));
    }
    assert Sorting.Places(entries, WasSent) == set k: nat | k < |toSend| && delivered(k);
  }

  method SendOne(store: MemoryStore, it: Item, delivered: bool, now: Instant, sent: nat) returns (count: nat)
    modifies store
    ensures AuditService.LogStep(old(store.st), store.st, ReminderEntry(it, delivered, now))
    ensures count == sent + Sorting.One(WasSent(ReminderEntry(it, delivered, now)))
  {
    hide WasSent, Metadata;
    SentMeansDelivered(it, delivered, now);
    count := sent;
    if delivered {
      count := count + 1;
    }
    AuditService.Log(store, it.tenantID, "", REMINDER_ACTION, "evidence_item", it.id, Metadata(delivered), now);
  }

  /** `Run`: `delivered(k)` and `clock(k)` are what the mailer and the clock answer for the `k`-th item. */
  method Run(store: MemoryStore, now: Instant, delivered: nat -> bool, clock: nat -> Instant)
          returns (sent: nat, ghost toSend: seq<Item>)
    modifies store
    ensures SelectStep(old(store.st), store.st.(auditLogs := old(store.st).auditLogs), now, toSend)
    ensures store.st.auditLogs == old(store.st).auditLogs + Attempts(toSend, delivered, clock)
    ensures sent == Sorting.Count(Attempts(toSend, delivered, clock), WasSent)
    ensures sent == |set k: nat | k < |toSend| && delivered(k)|
    ensures |store.st.auditLogs| == |old(store.st).auditLogs| + |toSend|
    ensures forall k :: 0 <= k < |toSend| ==>
              ReportsAttempt(store.st.auditLogs[|old(store.st).auditLogs| + k], toSend[k], delivered(k), clock(k))
  {
    hide SelectStep, WasSent, ReminderEntry, ReportsAttempt;
    var list := Select(store, now);
    toSend := list;
    ghost var selected, attempts := store.st, Attempts(list, delivered, clock);
    SelectKeepsLogs(old(store.st), selected, now, list);
    sent := 0;
    for k := 0 to |list|
      invariant store.st == selected.(auditLogs := selected.auditLogs + attempts[..k])
      invariant sent == Sorting.Count(attempts[..k], WasSent)
    {
      sent := SendOne(store, list[k], delivered(k), clock(k), sent);
      assert attempts[..k + 1] == attempts[..k] + [attempts[k]];
      Sorting.CountSnoc(attempts[..k], attempts[k], WasSent);
    }
    assert attempts[..|list|] == attempts;
    AttemptsMean(list, delivered, clock);
    assert |attempts| == |list|;
    forall k | 0 <= k < |list|
      ensures ReportsAttempt(store.st.auditLogs[|old(store.st).auditLogs| + k], list[k], delivered(k), clock(k))
    {
      assert store.st.auditLogs[|old(store.st).auditLogs| + k] == attempts[k];
    }
  }

  lemma SelectKeepsLogs(before: State, after: State, now: Instant, selected: seq<Item>)
    requires SelectStep(before, after, now, selected)
    ensures after.auditLogs == before.auditLogs
  {
  }
}

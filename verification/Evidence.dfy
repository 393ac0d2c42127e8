/** The rules of `internal/evidence` about a single item. */
module Evidence {
  import Text
  import opened Records
  import opened References
  import Sorting

  const STATUSES: set<string> := {"active", "expiring", "expired", "missing", "archived"}
  const CATEGORIES: set<string> := {"Security", "Compliance", "Finance", "HR", "IT", "Legal", "Ops", "Other"}
  const MAX_REMINDER_DAYS := 365
  const STALE_DAYS := 180

  predicate IsOwnerless(it: Item) {
    Text.TrimSpace(it.ownerEmail) == "" && Text.TrimSpace(it.ownerName) == ""
  }

  predicate IsExpired(it: Item) {
    it.status == "expired"
  }

  predicate IsStale(it: Item, now: Instant) {
    it.updatedAt != ZERO_TIME && it.updatedAt < AddDays(now, -STALE_DAYS)
  }

  function StaleAt(now: Instant): Item -> bool {
    (it: Item) => IsStale(it, now)
  }

  /** Both health scores are held between 0 and 100. */
  function Clamp(score: int): int {
    if score < 0 then 0 else if score > 100 then 100 else score
  }

  function CanonicalStatus(it: Item, now: Instant): string {
    if it.status == "expired" then "expired"
    else if it.status == "missing" then "missing"
    else if IsOwnerless(it) then "ownerless"
    else if IsStale(it, now) then "stale"
    else if it.status == "" then "degraded"
    else it.status
  }

  function DeriveStatus(existing: string, expiry: Option<Instant>, reminderDays: int, now: Instant): string {
    if existing == "missing" || existing == "archived" then existing
    else if expiry == None then "active"
    else
      var today, expiryDay := DayOf(now), DayOf(expiry.value);
      if expiryDay < today then "expired"
      else if expiryDay <= today + reminderDays then "expiring"
      else "active"
  }

  /** The derived status by calendar days. Missing and archived items keep their word. */
  lemma StatusMeans(existing: string, expiry: Option<Instant>, reminderDays: int, now: Instant)
    ensures var status := DeriveStatus(existing, expiry, reminderDays, now);
            if existing == "missing" || existing == "archived" then status == existing
            else
              && (status == "expired" <==> expiry.Some? && DayOf(expiry.value) < DayOf(now))
              && (status == "expiring" <==> expiry.Some?
                                            && DayOf(now) <= DayOf(expiry.value) <= DayOf(now) + reminderDays)
              && (status == "active" <==> expiry.None? || (DayOf(now) <= DayOf(expiry.value)
                                                           && DayOf(now) + reminderDays < DayOf(expiry.value)))
  {
    assert |"expired"| == 7 && |"expiring"| == 8 && |"active"| == 6;
  }

  /** The status shown for an item: its stored word if that is `expired` or `missing`; else `ownerless` without an
      owner; else `stale` when it was last updated more than 180 days ago; else its stored word, or `degraded` for
      none. */
  predicate ShowsStatus(it: Item, now: Instant, status: string) {
    var noOwner := Text.AllSpace(it.ownerEmail) && Text.AllSpace(it.ownerName);
    var old_ := it.updatedAt != 0 && now - it.updatedAt > 180 * 86_400_000_000_000;
    && (it.status == "expired" || it.status == "missing" ==> status == it.status)
    && (it.status != "expired" && it.status != "missing" ==>
          && (noOwner ==> status == "ownerless")
          && (!noOwner && old_ ==> status == "stale")
          && (!noOwner && !old_ ==> status == if it.status == "" then "degraded" else it.status))
  }

  lemma CanonicalIsShown(it: Item, now: Instant)
    ensures ShowsStatus(it, now, CanonicalStatus(it, now))
  {
    hide Text.AllSpace, Text.TrimSpace;
    Text.TrimmedAway(it.ownerEmail);
    Text.TrimmedAway(it.ownerName);
  }

  /** When an item has no owner, and when it is stale. */
  lemma GapsMean(it: Item, now: Instant)
    ensures IsOwnerless(it) <==> Text.AllSpace(it.ownerEmail) && Text.AllSpace(it.ownerName)
    ensures IsExpired(it) <==> it.status == "expired"
    ensures IsStale(it, now) <==> it.updatedAt != 0 && now - it.updatedAt > 180 * 86_400_000_000_000
  {
    hide Text.AllSpace, Text.TrimSpace;
    Text.TrimmedAway(it.ownerEmail);
    Text.TrimmedAway(it.ownerName);
  }

  datatype Rejection =
    | TitleRequired | InvalidStatus | InvalidCategory | ReminderOutOfRange | ExpiryBeforeIssue | BlankReference

  predicate HasBlankRef(refs: seq<string>) {
    exists k :: 0 <= k < |refs| && Text.TrimSpace(refs[k]) == ""
  }

  function Validate(it: Item): Option<Rejection> {
    if Text.TrimSpace(it.title) == "" then Some(TitleRequired)
    else if it.status !in STATUSES then Some(InvalidStatus)
    else if it.category !in CATEGORIES then Some(InvalidCategory)
    else if it.reminderDaysBefore < 0 || it.reminderDaysBefore > MAX_REMINDER_DAYS then Some(ReminderOutOfRange)
    else if it.issueDate.Some? && it.expiryDate.Some? && it.expiryDate.value < it.issueDate.value
      then Some(ExpiryBeforeIssue)
    else if HasBlankRef(it.controlRefs) || HasBlankRef(it.vendorRefs) || HasBlankRef(it.riskRefs)
      then Some(BlankReference)
    else None
  }

  predicate SomeBlank(refs: seq<string>) {
    exists k :: 0 <= k < |refs| && Text.AllSpace(refs[k])
  }

  /** What is wrong with an item, in its own fields. */
  predicate Problem(it: Item, why: Rejection) {
    match why
    case TitleRequired => Text.AllSpace(it.title)
    case InvalidStatus => it.status !in ["active", "expiring", "expired", "missing", "archived"]
    case InvalidCategory =>
      it.category !in ["Security", "Compliance", "Finance", "HR", "IT", "Legal", "Ops", "Other"]
    case ReminderOutOfRange => !(0 <= it.reminderDaysBefore <= 365)
    case ExpiryBeforeIssue => it.issueDate.Some? && it.expiryDate.Some? && it.expiryDate.value < it.issueDate.value
    case BlankReference => SomeBlank(it.controlRefs) || SomeBlank(it.vendorRefs) || SomeBlank(it.riskRefs)
  }

  function Turn(why: Rejection): nat {
    match why
    case TitleRequired => 0
    case InvalidStatus => 1
    case InvalidCategory => 2
    case ReminderOutOfRange => 3
    case ExpiryBeforeIssue => 4
    case BlankReference => 5
  }

  lemma BlankMeans(refs: seq<string>)
    ensures HasBlankRef(refs) <==> SomeBlank(refs)
  {
    hide Text.AllSpace, Text.TrimSpace;
    forall k | 0 <= k < |refs| ensures Text.TrimSpace(refs[k]) == "" <==> Text.AllSpace(refs[k]) {
      Text.TrimmedAway(refs[k]);
    }
  }

  /** An item is turned away for the first of its problems, and accepted exactly if it has none. */
  lemma ValidateMeans(it: Item, why: Rejection)
    ensures Validate(it) == None <==> forall w :: !Problem(it, w)
    ensures Validate(it) == Some(why) <==> Problem(it, why) && forall w :: Turn(w) < Turn(why) ==> !Problem(it, w)
  {
    hide Text.AllSpace, Text.TrimSpace, HasBlankRef, SomeBlank;
    Text.TrimmedAway(it.title);
    BlankMeans(it.controlRefs);
    BlankMeans(it.vendorRefs);
    BlankMeans(it.riskRefs);
    var p := Validate(it);
    if p.Some? {
      assert Problem(it, p.value) && forall w :: Turn(w) < Turn(p.value) ==> !Problem(it, w);
    }
  }

  /** What `Create` and `Update` do to the incoming item before they validate it. */
  function Prepared(it: Item, now: Instant, fold: Fold): Item {
    it.(status := DeriveStatus(it.status, it.expiryDate, it.reminderDaysBefore, now),
        controlRefs := NormalizeRefs(it.controlRefs, fold),
        vendorRefs := NormalizeRefs(it.vendorRefs, fold),
        riskRefs := NormalizeRefs(it.riskRefs, fold))
  }

  predicate NormalItem(it: Item, fold: Fold) {
    Normal(it.controlRefs, fold) && Normal(it.vendorRefs, fold) && Normal(it.riskRefs, fold)
  }

  /** A prepared item can be turned away for its title, category, reminder window or dates only: its status
      is always allowed and its references are always normal. */
  lemma PreparedItems(it: Item, now: Instant, fold: Fold)
    ensures NormalItem(Prepared(it, now, fold), fold)
    ensures Prepared(it, now, fold).status in STATUSES
    ensures Validate(Prepared(it, now, fold)) !in {Some(InvalidStatus), Some(BlankReference)}
  {
    NormalizedIsNormal(it.controlRefs, fold);
    NormalizedIsNormal(it.vendorRefs, fold);
    NormalizedIsNormal(it.riskRefs, fold);
  }

  /** The window in which a reminder is due, by instants. */
  predicate ReminderDue(it: Item, now: Instant) {
    && it.ownerEmail != ""
    && it.expiryDate.Some?
    && !(it.expiryDate.value < now || it.expiryDate.value > AddDays(now, it.reminderDaysBefore))
  }

  /** It is due with an address, and an expiry not before now and at most the item's number of days ahead. */
  lemma DueMeans(it: Item, now: Instant)
    ensures ReminderDue(it, now) <==>
            && it.ownerEmail != "" && it.expiryDate.Some?
            && now <= it.expiryDate.value <= now + it.reminderDaysBefore * 86_400_000_000_000
  {
  }

  /** An item that is due for a reminder is, by whole days, "expiring" at that instant unless it is parked as
      missing or archived. */
  lemma DueMeansExpiring(it: Item, now: Instant)
    requires ReminderDue(it, now)
    ensures DeriveStatus(it.status, it.expiryDate, it.reminderDaysBefore, now) ==
            if it.status == "missing" || it.status == "archived" then it.status else "expiring"
  {
  }

  // ---- Counting gaps --------------------------------------------------------

  // The items of a list with some property, by their places.

  function WithStatus(items: seq<Item>, status: string): set<nat> {
    set i: nat | i < |items| && items[i].status == status
  }

  function WithoutOwner(items: seq<Item>): set<nat> {
    set i: nat | i < |items| && Text.AllSpace(items[i].ownerEmail) && Text.AllSpace(items[i].ownerName)
  }

  /** Last updated more than 180 days ago. */
  function NotUpdated(items: seq<Item>, now: Instant): set<nat> {
    set i: nat | i < |items| && items[i].updatedAt != 0 && now - items[i].updatedAt > 180 * 86_400_000_000_000
  }

  lemma GapCounts(items: seq<Item>, now: Instant)
    ensures Sorting.Count(items, IsExpired) == |WithStatus(items, "expired")|
    ensures Sorting.Count(items, IsOwnerless) == |WithoutOwner(items)|
    ensures Sorting.Count(items, StaleAt(now)) == |NotUpdated(items, now)|
  {
    hide Sorting.Count, IsOwnerless, IsStale, Text.AllSpace;
    Sorting.CountIsPlaces(items, IsExpired);
    Sorting.CountIsPlaces(items, IsOwnerless);
    Sorting.CountIsPlaces(items, StaleAt(now));
    forall i | 0 <= i < |items|
      ensures IsOwnerless(items[i]) <==> Text.AllSpace(items[i].ownerEmail) && Text.AllSpace(items[i].ownerName)
      ensures StaleAt(now)(items[i]) <==>
              items[i].updatedAt != 0 && now - items[i].updatedAt > 180 * 86_400_000_000_000
    {
      GapsMean(items[i], now);
    }
    assert Sorting.Places(items, IsExpired) == WithStatus(items, "expired");
    assert Sorting.Places(items, IsOwnerless) == WithoutOwner(items);
    assert Sorting.Places(items, StaleAt(now)) == NotUpdated(items, now);
  }
}

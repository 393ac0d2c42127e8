/** The passes over the items that summarise a tenant: counts, top risks, degraded reasons and the health score. */
module GraphHealth {
  import Text
  import opened Records
  import References
  import opened Evidence
  import opened Sorting
  import opened GraphModel

  // ---- Item gaps ------------------------------------------------------------

  predicate LacksControls(it: Item) { it.controlRefs == [] }

  predicate LacksVendors(it: Item) { it.vendorRefs == [] }

  // ---- Evidence statistics --------------------------------------------------

  datatype Stats = Stats(owners: set<string>, ownerless: nat, expired: nat, stale: nat, risks: set<string>)

  function OwnerKey(it: Item, fold: References.Fold): string {
    fold(Text.TrimSpace(it.ownerEmail) + "|" + Text.TrimSpace(it.ownerName))
  }

  /** What the statistics mean. */
  function StatsOf(now: Instant, items: seq<Item>, fold: References.Fold): Stats {
    Stats(
      set i | 0 <= i < |items| && !IsOwnerless(items[i]) :: OwnerKey(items[i], fold),
      Count(items, IsOwnerless), Count(items, IsExpired), Count(items, StaleAt(now)),
      set i, k | 0 <= i < |items| && 0 <= k < |items[i].riskRefs| :: items[i].riskRefs[k])
  }

  method SummarizeEvidenceInfo(now: Instant, items: seq<Item>, fold: References.Fold) returns (stats: Stats)
    ensures stats == StatsOf(now, items, fold)
  {
    hide Count, IsOwnerless, IsStale;
    NothingCounted(now, items, fold);
    var owners: set<string> := {};
    stats := Stats({}, 0, 0, 0, {});
    for i := 0 to |items|
      invariant stats.(owners := owners) == StatsOf(now, items[..i], fold)
    {
      var it := items[i];
      assert items[..i + 1] == items[..i] + [it];
      ghost var before := StatsOf(now, items[..i], fold);
      if IsOwnerless(it) {
        stats := stats.(ownerless := stats.ownerless + 1);
      } else {
        owners := owners + {OwnerKey(it, fold)};
      }
      if it.status == "expired" {
        stats := stats.(expired := stats.expired + 1);
      }
      if IsStale(it, now) {
        stats := stats.(stale := stats.stale + 1);
      }
      var risks := stats.risks;
      for k := 0 to |it.riskRefs|
        invariant risks == before.risks + set m | 0 <= m < k :: it.riskRefs[m]
      {
        risks := risks + {it.riskRefs[k]};
      }
      stats := stats.(risks := risks);
      StatsSnoc(now, items[..i], it, fold);
    }
    assert items[..|items|] == items;
    stats := stats.(owners := owners);
  }

  lemma NothingCounted(now: Instant, items: seq<Item>, fold: References.Fold)
    ensures StatsOf(now, items[..0], fold) == Stats({}, 0, 0, 0, {})
  {
  }

  lemma StatsSnoc(now: Instant, items: seq<Item>, it: Item, fold: References.Fold)
    ensures StatsOf(now, items + [it], fold) ==
            var s := StatsOf(now, items, fold);
            Stats(s.owners + (if IsOwnerless(it) then {} else {OwnerKey(it, fold)}),
                  s.ownerless + (if IsOwnerless(it) then 1 else 0),
                  s.expired + (if IsExpired(it) then 1 else 0),
                  s.stale + (if IsStale(it, now) then 1 else 0),
                  s.risks + set m | 0 <= m < |it.riskRefs| :: it.riskRefs[m])
  {
    CountSnoc(items, it, IsOwnerless);
    CountSnoc(items, it, IsExpired);
    CountSnoc(items, it, StaleAt(now));
    OwnersSnoc(now, items, it, fold);
    RisksSnoc(now, items, it, fold);
  }

  lemma OwnersSnoc(now: Instant, items: seq<Item>, it: Item, fold: References.Fold)
    ensures StatsOf(now, items + [it], fold).owners ==
            StatsOf(now, items, fold).owners + (if IsOwnerless(it) then {} else {OwnerKey(it, fold)})
  {
  }

  lemma RisksSnoc(now: Instant, items: seq<Item>, it: Item, fold: References.Fold)
    ensures StatsOf(now, items + [it], fold).risks ==
            StatsOf(now, items, fold).risks + set m | 0 <= m < |it.riskRefs| :: it.riskRefs[m]
  {
  }

  /** The statistics in the items' own fields. */
  lemma StatsMean(now: Instant, items: seq<Item>, fold: References.Fold)
    ensures var s := StatsOf(now, items, fold);
            && s.ownerless == |WithoutOwner(items)| && s.expired == |WithStatus(items, "expired")|
            && s.stale == |NotUpdated(items, now)|
            && s.owners == (set i: nat | i < |items| && i !in WithoutOwner(items) ::
                  fold(Text.TrimSpace(items[i].ownerEmail) + "|" + Text.TrimSpace(items[i].ownerName)))
            && (forall r :: r in s.risks <==> exists i :: 0 <= i < |items| && r in items[i].riskRefs)
  {
    hide Count, IsOwnerless, IsStale, Text.TrimSpace, Text.AllSpace;
    GapCounts(items, now);
    forall i | 0 <= i < |items| ensures IsOwnerless(items[i]) <==> i in WithoutOwner(items) {
      GapsMean(items[i], now);
    }
    forall r ensures r in StatsOf(now, items, fold).risks <==> exists i :: 0 <= i < |items| && r in items[i].riskRefs {
    }
  }

  // ---- Degraded reasons -----------------------------------------------------

  datatype Reason =
    | NoEvidence | SomeOwnerless | SomeExpired | SomeStale | NoReviews | NoComparison | NoProofpacks
    | SomeLackControls | SomeLackVendors
    | NodesCapped(max: int, total: int) | EdgesCapped(max: int, total: int)

  function When(wanted: bool, r: Reason): seq<Reason> {
    if wanted then [r] else []
  }

  function DegradedReasons(now: Instant, items: seq<Item>, d: TenantData): seq<Reason> {
    When(|items| == 0, NoEvidence)
    + When(Count(items, IsOwnerless) > 0, SomeOwnerless)
    + When(Count(items, IsExpired) > 0, SomeExpired)
    + When(Count(items, StaleAt(now)) > 0, SomeStale)
    + When(|d.reviews| == 0, NoReviews)
    + When(|d.reviews| < 2, NoComparison)
    + When(|d.proofpacks| == 0, NoProofpacks)
    + When(Count(items, LacksControls) > 0, SomeLackControls)
    + When(Count(items, LacksVendors) > 0, SomeLackVendors)
  }

  method DegradedReasonsLoop(items: seq<Item>, d: TenantData, stats: Stats, ghost now: Instant,
          ghost fold: References.Fold)
          returns (out: seq<Reason>)
    requires stats == StatsOf(now, items, fold)
    ensures out == DegradedReasons(now, items, d)
  {
    hide Count, When, IsOwnerless, IsStale, IsExpired, LacksControls, LacksVendors;
    out := When(|items| == 0, NoEvidence);
    out := out + When(stats.ownerless > 0, SomeOwnerless);
    out := out + When(stats.expired > 0, SomeExpired);
    out := out + When(stats.stale > 0, SomeStale);
    out := out + When(|d.reviews| == 0, NoReviews);
    out := out + When(|d.reviews| < 2, NoComparison);
    out := out + When(|d.proofpacks| == 0, NoProofpacks);
    var missingControls, missingVendors := CountMissing(items);
    out := out + When(missingControls > 0, SomeLackControls);
    out := out + When(missingVendors > 0, SomeLackVendors);
  }

  method CountMissing(items: seq<Item>) returns (missingControls: nat, missingVendors: nat)
    ensures missingControls == Count(items, LacksControls) && missingVendors == Count(items, LacksVendors)
  {
    missingControls, missingVendors := 0, 0;
    for i := 0 to |items|
      invariant missingControls == Count(items[..i], LacksControls)
      invariant missingVendors == Count(items[..i], LacksVendors)
    {
      assert items[..i + 1] == items[..i] + [items[i]];
      CountSnoc(items[..i], items[i], LacksControls);
      CountSnoc(items[..i], items[i], LacksVendors);
      if |items[i].controlRefs| == 0 { missingControls := missingControls + 1; }
      if |items[i].vendorRefs| == 0 { missingVendors := missingVendors + 1; }
    }
    assert items[..|items|] == items;
  }

  // ---- The health score -----------------------------------------------------

  function ItemPenalty(it: Item, now: Instant): nat {
    (if IsExpired(it) then 14 else 0)
    + (if IsOwnerless(it) then 10 else 0)
    + (if IsStale(it, now) then 8 else 0)
    + (if LacksControls(it) then 4 else 0)
    + (if LacksVendors(it) then 2 else 0)
  }

  predicate ReviewOverdue(now: Instant, d: TenantData) {
    |d.reviews| > 0 && now - d.reviews[0].lastReviewedAt > 9 * DAY
  }

  function HistoryPenalty(now: Instant, d: TenantData): nat {
    (if |d.reviews| == 0 then 12 else if ReviewOverdue(now, d) then 10 else 0)
    + (if |d.proofpacks| == 0 then 8 else 0)
    + (if |d.reviews| < 2 then 6 else 0)
  }

  /** The documented linear form: fixed weights times the numbers of items with each gap. */
  function Penalty(now: Instant, items: seq<Item>): nat {
    14 * Count(items, IsExpired) + 10 * Count(items, IsOwnerless) + 8 * Count(items, StaleAt(now))
    + 4 * Count(items, LacksControls) + 2 * Count(items, LacksVendors)
  }

  function Health(now: Instant, items: seq<Item>, d: TenantData): int {
    Clamp(100 - (if items == [] then 40 else 0) - Penalty(now, items) - HistoryPenalty(now, d))
  }

  lemma PenaltySnoc(now: Instant, items: seq<Item>, it: Item)
    ensures Penalty(now, items + [it]) == Penalty(now, items) + ItemPenalty(it, now)
  {
    CountSnoc(items, it, IsExpired);
    CountSnoc(items, it, IsOwnerless);
    CountSnoc(items, it, StaleAt(now));
    CountSnoc(items, it, LacksControls);
    CountSnoc(items, it, LacksVendors);
  }

  method GraphHealthLoop(now: Instant, items: seq<Item>, d: TenantData) returns (score: int)
    ensures score == Health(now, items, d)
  {
    score := 100;
    if |items| == 0 { score := score - 40; }
    for i := 0 to |items|
      invariant score == 100 - (if items == [] then 40 else 0) - Penalty(now, items[..i])
    {
      var it := items[i];
      assert items[..i + 1] == items[..i] + [it];
      PenaltySnoc(now, items[..i], it);
      if it.status == "expired" { score := score - 14; }
      if IsOwnerless(it) { score := score - 10; }
      if IsStale(it, now) { score := score - 8; }
      if |it.controlRefs| == 0 { score := score - 4; }
      if |it.vendorRefs| == 0 { score := score - 2; }
    }
    assert items[..|items|] == items;
    if |d.reviews| == 0 {
      score := score - 12;
    } else if now - d.reviews[0].lastReviewedAt > 9 * DAY {
      score := score - 10;
    }
    if |d.proofpacks| == 0 { score := score - 8; }
    if |d.reviews| < 2 { score := score - 6; }
    if score < 0 { return 0; }
    if score > 100 { return 100; }
  }

  // ---- What the reasons and the score mean ----------------------------------

  function NoControls(items: seq<Item>): set<nat> { set i: nat | i < |items| && items[i].controlRefs == [] }

  function NoVendors(items: seq<Item>): set<nat> { set i: nat | i < |items| && items[i].vendorRefs == [] }

  lemma MappingCounts(items: seq<Item>)
    ensures Count(items, LacksControls) == |NoControls(items)| && Count(items, LacksVendors) == |NoVendors(items)|
  {
    hide Count;
    CountIsPlaces(items, LacksControls);
    CountIsPlaces(items, LacksVendors);
    assert Places(items, LacksControls) == NoControls(items);
    assert Places(items, LacksVendors) == NoVendors(items);
  }

  /** What a reason says is missing or bad. */
  predicate Holds(r: Reason, now: Instant, items: seq<Item>, d: TenantData) {
    match r
    case NoEvidence => items == []
    case SomeOwnerless => WithoutOwner(items) != {}
    case SomeExpired => WithStatus(items, "expired") != {}
    case SomeStale => NotUpdated(items, now) != {}
    case NoReviews => d.reviews == []
    case NoComparison => |d.reviews| <= 1
    case NoProofpacks => d.proofpacks == []
    case SomeLackControls => NoControls(items) != {}
    case SomeLackVendors => NoVendors(items) != {}
    case NodesCapped(_, _) => false
    case EdgesCapped(_, _) => false
  }

  const REASONS: seq<Reason> := [NoEvidence, SomeOwnerless, SomeExpired, SomeStale, NoReviews, NoComparison,
    NoProofpacks, SomeLackControls, SomeLackVendors]

  /** Before the caps the reasons are those of the nine that hold, in their order. */
  lemma ReasonsMean(now: Instant, items: seq<Item>, d: TenantData)
    ensures DegradedReasons(now, items, d) == Filter(REASONS, (r: Reason) => Holds(r, now, items, d))
  {
    hide Count, IsOwnerless, IsStale, IsExpired, WithoutOwner, WithStatus, NotUpdated, NoControls, NoVendors, Filter,
      When, REASONS;
    GapCounts(items, now);
    MappingCounts(items);
    ReasonsFiltered((r: Reason) => Holds(r, now, items, d));
  }

  lemma ReasonsFiltered(p: Reason -> bool)
    ensures Filter(REASONS, p)
            == When(p(NoEvidence), NoEvidence) + When(p(SomeOwnerless), SomeOwnerless)
               + When(p(SomeExpired), SomeExpired) + When(p(SomeStale), SomeStale)
               + When(p(NoReviews), NoReviews) + When(p(NoComparison), NoComparison)
               + When(p(NoProofpacks), NoProofpacks) + When(p(SomeLackControls), SomeLackControls)
               + When(p(SomeLackVendors), SomeLackVendors)
  {
    hide Filter, When;
    var three := [] + [NoEvidence, SomeOwnerless, SomeExpired];
    var six := three + [SomeStale, NoReviews, NoComparison];
    FilterThree([], p, NoEvidence, SomeOwnerless, SomeExpired);
    FilterThree(three, p, SomeStale, NoReviews, NoComparison);
    FilterThree(six, p, NoProofpacks, SomeLackControls, SomeLackVendors);
    assert REASONS == six + [NoProofpacks, SomeLackControls, SomeLackVendors];
    NothingFiltered(p);
  }

  lemma NothingFiltered(p: Reason -> bool)
    ensures Filter([], p) == []
  {
  }

  lemma FilterThree(before: seq<Reason>, p: Reason -> bool, a: Reason, b: Reason, c: Reason)
    ensures Filter(before + [a, b, c], p) == Filter(before, p) + When(p(a), a) + When(p(b), b) + When(p(c), c)
  {
    hide Filter;
    FilterSnoc(before, a, p);
    FilterSnoc(before + [a], b, p);
    FilterSnoc(before + [a] + [b], c, p);
    assert before + [a, b, c] == before + [a] + [b] + [c];
  }

  /** The score in the records' own fields: 100 less fixed points for each item with a gap and for what the history
      lacks, held between 0 and 100. */
  lemma HealthMeans(now: Instant, items: seq<Item>, d: TenantData)
    ensures var lost := (if items == [] then 40 else 0) + 14 * |WithStatus(items, "expired")|
                        + 10 * |WithoutOwner(items)| + 8 * |NotUpdated(items, now)| + 4 * |NoControls(items)|
                        + 2 * |NoVendors(items)|
                        + (if d.reviews == [] then 18 else if |d.reviews| == 1 then 6 else 0)
                        + (if d.reviews != [] && now - d.reviews[0].lastReviewedAt > 9 * 86_400_000_000_000 then 10
                           else 0)
                        + (if d.proofpacks == [] then 8 else 0);
            Health(now, items, d) == if lost >= 100 then 0 else 100 - lost
  {
    hide Count, WithStatus, WithoutOwner, NotUpdated, NoControls, NoVendors;
    GapCounts(items, now);
    MappingCounts(items);
  }

  /** What the document adds: three for each unresolved issue of the latest review, at most eighteen. */
  lemma DocumentedMeans(now: Instant, items: seq<Item>, d: TenantData)
    ensures var more := if d.reviews == [] then 0 else 3 * d.reviews[0].unresolvedIssues;
            var lost := Penalties(now, items, d) + (if more < 0 then 0 else if more > 18 then 18 else more);
            DocumentedHealth(now, items, d) == if lost >= 100 then 0 else 100 - lost
    ensures Health(now, items, d) == if Penalties(now, items, d) >= 100 then 0 else 100 - Penalties(now, items, d)
  {
    hide Penalty, HistoryPenalty;
  }

  // ---- Properties of the score ----------------------------------------------

  lemma PenaltyConcat(now: Instant, a: seq<Item>, b: seq<Item>)
    ensures Penalty(now, a + b) == Penalty(now, a) + Penalty(now, b)
  {
    CountConcat(a, b, IsExpired);
    CountConcat(a, b, IsOwnerless);
    CountConcat(a, b, StaleAt(now));
    CountConcat(a, b, LacksControls);
    CountConcat(a, b, LacksVendors);
  }

  /** The score does not depend on the order of the items. */
  lemma HealthUpToOrder(now: Instant, items: seq<Item>, items': seq<Item>, d: TenantData)
    requires multiset(items) == multiset(items')
    ensures Health(now, items, d) == Health(now, items', d)
  {
    SameLength(items, items');
    CountUpToOrder(items, items', IsExpired);
    CountUpToOrder(items, items', IsOwnerless);
    CountUpToOrder(items, items', StaleAt(now));
    CountUpToOrder(items, items', LacksControls);
    CountUpToOrder(items, items', LacksVendors);
  }

  /** Replacing one item moves the unclamped score by the difference of the two penalties. */
  lemma HealthOfReplacement(now: Instant, items: seq<Item>, k: nat, it: Item)
    requires k < |items|
    ensures Penalty(now, items[k := it]) + ItemPenalty(items[k], now) == Penalty(now, items) + ItemPenalty(it, now)
  {
    var a, b := items[..k], items[k + 1..];
    assert items == (a + [items[k]]) + b;
    assert items[k := it] == (a + [it]) + b;
    PenaltySnoc(now, a, items[k]);
    PenaltySnoc(now, a, it);
    PenaltyConcat(now, a + [items[k]], b);
    PenaltyConcat(now, a + [it], b);
  }

  /** Adding an item to a non-empty list, anywhere, never raises the score. */
  lemma HealthOfAddition(now: Instant, a: seq<Item>, it: Item, b: seq<Item>, d: TenantData)
    requires a + b != []
    ensures Health(now, a + [it] + b, d) <= Health(now, a + b, d)
  {
    PenaltySnoc(now, a, it);
    PenaltyConcat(now, a + [it], b);
    PenaltyConcat(now, a, b);
  }

  /** One repair: give an owner, map a control or a vendor, refresh, or lift the expired status. */
  datatype Repair = GiveOwner(name: string,
    email: string) | MapControls(refs: seq<string>) | MapVendors(refs: seq<string>) | Refresh | Unexpire(status: string)

  function Repaired(it: Item, r: Repair, now: Instant): Item {
    match r
    case GiveOwner(name, email) => it.(ownerName := name, ownerEmail := email)
    case MapControls(refs) => it.(controlRefs := refs)
    case MapVendors(refs) => it.(vendorRefs := refs)
    case Refresh => it.(updatedAt := now)
    case Unexpire(status) => it.(status := status)
  }

  predicate IsRepair(r: Repair) {
    match r
    case GiveOwner(name, email) => Text.TrimSpace(name) != "" || Text.TrimSpace(email) != ""
    case MapControls(refs) => refs != []
    case MapVendors(refs) => refs != []
    case Refresh => true
    case Unexpire(status) => status != "expired"
  }

  /** Repairing one item never lowers the score. */
  lemma HealthOfRepair(now: Instant, items: seq<Item>, k: nat, r: Repair, d: TenantData)
    requires k < |items| && IsRepair(r)
    ensures Health(now, items, d) <= Health(now, items[k := Repaired(items[k], r, now)], d)
  {
    HealthOfReplacement(now, items, k, Repaired(items[k], r, now));
  }

  // ---- The documented score -------------------------------------------------

  function Penalties(now: Instant, items: seq<Item>, d: TenantData): nat {
    (if items == [] then 40 else 0) + Penalty(now, items) + HistoryPenalty(now, d)
  }

  /** The document lists one penalty more: three for each unresolved issue of the latest review, at most eighteen. */
  function UnresolvedPenalty(d: TenantData): nat {
    if |d.reviews| == 0 || d.reviews[0].unresolvedIssues <= 0 then 0
    else if d.reviews[0].unresolvedIssues >= 6 then 18
    else 3 * d.reviews[0].unresolvedIssues
  }

  function DocumentedHealth(now: Instant, items: seq<Item>, d: TenantData): int {
    Clamp(100 - Penalties(now, items, d) - UnresolvedPenalty(d))
  }

  /** Code and document agree exactly when the latest review has no unresolved issue or the score is zero anyway. */
  lemma HealthAsDocumentedIff(now: Instant, items: seq<Item>, d: TenantData)
    ensures Health(now, items, d) == DocumentedHealth(now, items, d) <==>
            |d.reviews| == 0 || d.reviews[0].unresolvedIssues <= 0 || Penalties(now, items, d) >= 100
  {
  }

  /** A tenant that scores 100 where the document says 97. */
  lemma HealthNotAsDocumented() returns (now: Instant, items: seq<Item>, d: TenantData)
    ensures Health(now, items, d) == 100 && DocumentedHealth(now, items, d) == 97
  {
    now := DAY;
    items := [Item("a", "t", "Policy", "Security", "active", "Ada", "", "", "", None, None, 30, ["c"], ["v"], [], now,
      now)];
    var review := ReviewSnapshot("t", now, now, AddDays(now, 7), 100, 1, 0, 0, 0, 0);
    d := NO_DATA.(proofpacks := [Proofpack("p", now, ["a"], "")], reviews := [review, review]);
    assert !IsOwnerless(items[0]) by {
      Text.TrimFixes("Ada", Text.IsSpace);
    }
    assert items == [] + items;
    PenaltySnoc(now, [], items[0]);
  }

  // ---- The passes agree -----------------------------------------------------

  /** No reason is given exactly when nothing is counted against the tenant except a late review. */
  lemma ReasonsAreGaps(now: Instant, items: seq<Item>, d: TenantData)
    ensures DegradedReasons(now, items, d) == [] <==>
            items != [] && Penalty(now, items) == 0 && |d.reviews| >= 2 && |d.proofpacks| > 0
  {
  }

  /** The score is 100 exactly when there is no degraded reason and the latest review is at most nine days old. */
  lemma FullHealthMeansNoReasons(now: Instant, items: seq<Item>, d: TenantData)
    ensures Health(now, items, d) == 100 <==> DegradedReasons(now, items, d) == [] && !ReviewOverdue(now, d)
    ensures 0 <= Health(now, items, d) <= 100
  {
    ReasonsAreGaps(now, items, d);
  }

  function OfType(typ: string): Action -> bool { (a: Action) => a.typ == typ }

  predicate NotActive(a: Action) { a.severity != "active" }

  lemma ItemActionCount(gap: bool, t: string, severity: string, impact: int, title: string, it: Item, typ: string)
    requires severity != "active"
    ensures Count(ItemAction(gap, t, severity, impact, title, it), OfType(typ)) == One(gap && t == typ)
    ensures Count(ItemAction(gap, t, severity, impact, title, it), NotActive) == One(gap)
  {
  }

  /** An item raises one action of each kind of gap it has. */
  lemma ItemActionsCount(now: Instant, it: Item, typ: string)
    ensures Count(ItemActions(now, it), OfType(typ)) ==
            One(IsExpired(it) && "replace_expired_evidence" == typ)
            + One(IsOwnerless(it) && "assign_owner" == typ)
            + One(IsStale(it, now) && "refresh_stale_evidence" == typ)
            + One(LacksControls(it) && "add_control_mapping" == typ)
            + One(LacksVendors(it) && "add_vendor_mapping" == typ)
    ensures Count(ItemActions(now, it), NotActive) ==
            One(IsExpired(it)) + One(IsOwnerless(it)) + One(IsStale(it, now))
            + One(LacksControls(it)) + One(LacksVendors(it))
  {
    hide EvidenceNodeID, ActionID, ItemAction, IsOwnerless, IsStale;
    var a := ItemAction(IsExpired(it), "replace_expired_evidence", "expired", 25, "Replace expired evidence: ", it);
    var b := ItemAction(IsOwnerless(it), "assign_owner", "ownerless", 18, "Assign owner to ", it);
    var c := ItemAction(IsStale(it, now), "refresh_stale_evidence", "stale", 12, "Refresh stale evidence: ", it);
    var e := ItemAction(it.controlRefs == [], "add_control_mapping", "missing", 10, "Add control mapping for ", it);
    var f := ItemAction(it.vendorRefs == [], "add_vendor_mapping", "missing", 7, "Add vendor mapping for ", it);
    ItemActionCount(IsExpired(it), "replace_expired_evidence", "expired", 25, "Replace expired evidence: ", it, typ);
    ItemActionCount(IsOwnerless(it), "assign_owner", "ownerless", 18, "Assign owner to ", it, typ);
    ItemActionCount(IsStale(it, now), "refresh_stale_evidence", "stale", 12, "Refresh stale evidence: ", it, typ);
    ItemActionCount(it.controlRefs == [], "add_control_mapping", "missing", 10, "Add control mapping for ", it, typ);
    ItemActionCount(it.vendorRefs == [], "add_vendor_mapping", "missing", 7, "Add vendor mapping for ", it, typ);
    CountFive(a, b, c, e, f, OfType(typ));
    CountFive(a, b, c, e, f, NotActive);
  }

  lemma CountFive<T>(a: seq<T>, b: seq<T>, c: seq<T>, d: seq<T>, e: seq<T>, p: T -> bool)
    ensures Count(a + b + c + d + e, p) == Count(a, p) + Count(b, p) + Count(c, p) + Count(d, p) + Count(e, p)
  {
    CountConcat(a, b, p);
    CountConcat(a + b, c, p);
    CountConcat(a + b + c, d, p);
    CountConcat(a + b + c + d, e, p);
  }
}

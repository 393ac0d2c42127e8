/** `evaluate`: one pass over the items that counts problems, scores them, and splits them by owner. */
module Evaluation {
  import Text
  import opened Records
  import opened Evidence
  import opened Sorting
  import opened Keyed

  // ---- Owners ---------------------------------------------------------------

  datatype OwnerKey = OwnerKey(email: string, name: string)

  datatype OwnerSummary = OwnerSummary(name: string, email: string, total: nat, unresolved: nat)

  function KeyOf(it: Item): OwnerKey {
    OwnerKey(Text.TrimSpace(it.ownerEmail), Text.TrimSpace(it.ownerName))
  }

  /** The key under which a summary is kept; its own fields are as the first item of that owner wrote them. */
  function KeyOfSummary(o: OwnerSummary): OwnerKey {
    OwnerKey(Text.TrimSpace(o.email), Text.TrimSpace(o.name))
  }

  predicate IsExpiring(it: Item) { it.status == "expiring" }

  predicate IsActive(it: Item) { it.status == "active" }

  function Owned(key: OwnerKey): Item -> bool { (it: Item) => KeyOf(it) == key }

  function Both(p: Item -> bool, q: Item -> bool): Item -> bool { (it: Item) => p(it) && q(it) }

  function Everything(it: Item): bool { true }

  /** What the owner of `key` is charged with: expired, expiring and stale items. */
  function Charged(items: seq<Item>, now: Instant, key: OwnerKey): nat {
    Count(items, Both(Owned(key), IsExpired)) + Count(items, Both(Owned(key), IsExpiring))
      + Count(items, Both(Owned(key), StaleAt(now)))
  }

  // ---- The pass -------------------------------------------------------------

  datatype Tally = Tally(score: int, expired: nat, expiringSoon: nat, missingOwner: nat, stale: nat, unresolved: nat)

  function TallyOf(items: seq<Item>, now: Instant): Tally {
    var e, x, m, s := Count(items, IsExpired), Count(items, IsExpiring), Count(items, IsOwnerless),
      Count(items, StaleAt(now));
    Tally(100 - 25 * e - 10 * x - 15 * m + Count(items, IsActive) - 8 * s, e, x, m, s, e + x + m + s)
  }

  /** Named as the first item of its owner names it. */
  ghost predicate NamedAsFirst(o: OwnerSummary, items: seq<Item>) {
    exists i :: 0 <= i < |items| && items[i].ownerName == o.name && items[i].ownerEmail == o.email
      && forall j :: 0 <= j < i ==> KeyOf(items[j]) != KeyOf(items[i])
  }

  lemma NamedLater(o: OwnerSummary, o': OwnerSummary, items: seq<Item>, it: Item)
    requires NamedAsFirst(o, items) && o'.name == o.name && o'.email == o.email
    ensures NamedAsFirst(o', items + [it])
  {
    hide KeyOf;
    var i :| 0 <= i < |items| && items[i].ownerName == o.name && items[i].ownerEmail == o.email
      && forall j :: 0 <= j < i ==> KeyOf(items[j]) != KeyOf(items[i]);
    assert forall j :: 0 <= j <= i ==> (items + [it])[j] == items[j];
  }

  lemma NamedNew(o: OwnerSummary, items: seq<Item>, it: Item)
    requires o.name == it.ownerName && o.email == it.ownerEmail
    requires forall j :: 0 <= j < |items| ==> KeyOf(items[j]) != KeyOf(it)
    ensures NamedAsFirst(o, items + [it])
  {
    hide KeyOf;
    assert (items + [it])[|items|] == it;
  }

  /** The owner map holds exactly the owners of the items, each with its own counts. */
  ghost predicate OwnersAre(owners: map<OwnerKey, OwnerSummary>, items: seq<Item>, now: Instant) {
    && (forall i :: 0 <= i < |items| ==> KeyOf(items[i]) in owners)
    && (forall key :: key in owners ==>
          && KeyOfSummary(owners[key]) == key && NamedAsFirst(owners[key], items)
          && owners[key].total == Count(items, Owned(key)) > 0
          && owners[key].unresolved == Charged(items, now, key))
  }

  method EvaluateItem(it: Item, now: Instant, t: Tally, o: OwnerSummary) returns (t': Tally, o': OwnerSummary)
    ensures t' == Tally(
                    t.score - (if IsExpired(it) then 25 else 0) - (if IsExpiring(it) then 10
                      else 0) - (if IsOwnerless(it) then 15 else 0)
                    + (if IsActive(it) then 1 else 0) - (if IsStale(it, now) then 8 else 0),
                    t.expired + One(IsExpired(it)), t.expiringSoon + One(IsExpiring(it)),
                      t.missingOwner + One(IsOwnerless(it)),
                    t.stale + One(IsStale(it, now)),
                    t.unresolved + One(IsExpired(it)) + One(IsExpiring(it)) + One(IsOwnerless(it))
                      + One(IsStale(it, now)))
    ensures o' == o.(total := o.total + 1,
            unresolved := o.unresolved + One(IsExpired(it)) + One(IsExpiring(it)) + One(IsStale(it, now)))
  {
    hide IsOwnerless, IsStale;
    t', o' := t, o.(total := o.total + 1);
    if it.status == "expired" {
      t' := t'.(expired := t'.expired + 1, unresolved := t'.unresolved + 1, score := t'.score - 25);
      o' := o'.(unresolved := o'.unresolved + 1);
    }
    if it.status == "expiring" {
      t' := t'.(expiringSoon := t'.expiringSoon + 1, unresolved := t'.unresolved + 1, score := t'.score - 10);
      o' := o'.(unresolved := o'.unresolved + 1);
    }
    if IsOwnerless(it) {
      t' := t'.(missingOwner := t'.missingOwner + 1, unresolved := t'.unresolved + 1, score := t'.score - 15);
    }
    if it.status == "active" {
      t' := t'.(score := t'.score + 1);
    }
    if IsStale(it, now) {
      t' := t'.(stale := t'.stale + 1, unresolved := t'.unresolved + 1, score := t'.score - 8);
      o' := o'.(unresolved := o'.unresolved + 1);
    }
  }

  lemma TallySnoc(items: seq<Item>, it: Item, now: Instant)
    ensures var t, t' := TallyOf(items, now), TallyOf(items + [it], now);
            && t'.expired == t.expired + One(IsExpired(it)) && t'.expiringSoon == t.expiringSoon + One(IsExpiring(it))
            && t'.missingOwner == t.missingOwner + One(IsOwnerless(it)) && t'.stale == t.stale + One(IsStale(it, now))
            && t'.score == t.score - 25 * One(IsExpired(it)) - 10 * One(IsExpiring(it)) - 15 * One(IsOwnerless(it))
              + One(IsActive(it)) - 8 * One(IsStale(it, now))
  {
    hide IsOwnerless, IsStale, Count;
    CountSnoc(items, it, IsExpired);
    CountSnoc(items, it, IsExpiring);
    CountSnoc(items, it, IsOwnerless);
    CountSnoc(items, it, IsActive);
    CountSnoc(items, it, StaleAt(now));
  }

  lemma OwnedSnoc(items: seq<Item>, it: Item, now: Instant, key: OwnerKey)
    ensures Count(items + [it], Owned(key)) == Count(items, Owned(key)) + One(KeyOf(it) == key)
    ensures Charged(items + [it], now, key) ==
            Charged(items, now, key) + if KeyOf(it) == key
              then One(IsExpired(it)) + One(IsExpiring(it)) + One(IsStale(it, now)) else 0
  {
  }

  /** Nobody owns anything when the owner is not in the map. */
  lemma NotOwned(items: seq<Item>, now: Instant, key: OwnerKey)
    requires forall i :: 0 <= i < |items| ==> KeyOf(items[i]) != key
    ensures Count(items, Owned(key)) == 0 && Charged(items, now, key) == 0
  {
  }

  /** One iteration: the item is charged to its owner, who may be new. */
  lemma OwnersStep(owners: map<OwnerKey, OwnerSummary>, items: seq<Item>, it: Item, now: Instant, o: OwnerSummary)
    requires OwnersAre(owners, items, now)
    requires KeyOfSummary(o) == KeyOf(it) && NamedAsFirst(o, items + [it])
    requires o.total == Count(items, Owned(KeyOf(it))) + 1
    requires o.unresolved == Charged(items, now, KeyOf(it)) + One(IsExpired(it)) + One(IsExpiring(it))
             + One(IsStale(it, now))
    ensures OwnersAre(owners[KeyOf(it) := o], items + [it], now)
  {
    hide KeyOf, Count, IsStale, Charged, KeyOfSummary, NamedAsFirst;
    var next := owners[KeyOf(it) := o];
    forall key | key in next
      ensures next[key].total == Count(items + [it], Owned(key)) > 0
              && next[key].unresolved == Charged(items + [it], now, key) && NamedAsFirst(next[key], items + [it])
    {
      OwnedSnoc(items, it, now, key);
      if key != KeyOf(it) {
        NamedLater(owners[key], owners[key], items, it);
      }
    }
  }

  datatype Summary = Summary(score: int, expired: nat, expiringSoon: nat, missingOwner: nat, stale: nat,
    unresolved: nat, owners: seq<OwnerSummary>)

  predicate MoreUnresolved(a: OwnerSummary, b: OwnerSummary) {
    a.unresolved > b.unresolved
  }

  /** What the pass over `items` must return. The order of owners with equally many unresolved items is left open. */
  ghost predicate IsSummary(s: Summary, items: seq<Item>, now: Instant) {
    var t := TallyOf(items, now);
    && s.score == Clamp(t.score)
    && s.expired == t.expired && s.expiringSoon == t.expiringSoon && s.missingOwner == t.missingOwner
    && s.stale == t.stale && s.unresolved == t.unresolved
    && OwnersListed(s.owners, items, now)
    && Sorted(s.owners, MoreUnresolved)
  }

  ghost predicate ListsKey(owners: seq<OwnerSummary>, key: OwnerKey) {
    exists k :: 0 <= k < |owners| && KeyOfSummary(owners[k]) == key
  }

  ghost predicate OwnersListed(owners: seq<OwnerSummary>, items: seq<Item>, now: Instant) {
    && (forall j, k :: 0 <= j < k < |owners| ==> KeyOfSummary(owners[j]) != KeyOfSummary(owners[k]))
    && (forall i :: 0 <= i < |items| ==> ListsKey(owners, KeyOf(items[i])))
    && (forall k :: 0 <= k < |owners| ==>
          owners[k].total == Count(items, Owned(KeyOfSummary(owners[k]))) > 0
            && owners[k].unresolved == Charged(items, now, KeyOfSummary(owners[k]))
            && NamedAsFirst(owners[k], items))
  }

  method Evaluate(items: seq<Item>, now: Instant) returns (s: Summary)
    ensures IsSummary(s, items, now)
  {
    hide IsOwnerless, IsStale, Count, KeyOf, KeyOfSummary, Charged, TallyOf, StableSort, NamedAsFirst;
    var t := Tally(100, 0, 0, 0, 0, 0);
    var owners: map<OwnerKey, OwnerSummary> := map[];
    EmptyTally(now);
    for i := 0 to |items|
      invariant t == TallyOf(items[..i], now)
      invariant OwnersAre(owners, items[..i], now)
    {
      var it := items[i];
      var key := KeyOf(it);
      assert items[..i + 1] == items[..i] + [it];
      var o := OwnerSummary(it.ownerName, it.ownerEmail, 0, 0);
      if key in owners {
        o := owners[key];
      } else {
        NotOwned(items[..i], now, key);
        NewKey(it);
      }
      var t', o' := EvaluateItem(it, now, t, o);
      SameKey(o, o');
      if key in owners {
        NamedLater(o, o', items[..i], it);
      } else {
        NamedNew(o', items[..i], it);
      }
      OwnersStep(owners, items[..i], it, now, o');
      TallyNext(items[..i], it, now);
      t, owners := t', owners[key := o'];
    }
    assert items[..|items|] == items;
    var listed := ListOwners(owners, items, now);
    s := Summary(Clamp(t.score), t.expired, t.expiringSoon, t.missingOwner, t.stale, t.unresolved, listed);
  }

  lemma EmptyTally(now: Instant)
    ensures TallyOf([], now) == Tally(100, 0, 0, 0, 0, 0)
  {
  }

  lemma NewKey(it: Item)
    ensures KeyOfSummary(OwnerSummary(it.ownerName, it.ownerEmail, 0, 0)) == KeyOf(it)
  {
  }

  lemma SameKey(o: OwnerSummary, o': OwnerSummary)
    requires o.name == o'.name && o.email == o'.email
    ensures KeyOfSummary(o) == KeyOfSummary(o')
  {
  }

  lemma TallyNext(items: seq<Item>, it: Item, now: Instant)
    ensures var t, e, x, m, a, s := TallyOf(items, now), One(IsExpired(it)), One(IsExpiring(it)),
            One(IsOwnerless(it)), One(IsActive(it)), One(IsStale(it, now));
            TallyOf(items + [it], now) ==
            Tally(t.score - 25 * e - 10 * x - 15 * m + a - 8 * s, t.expired + e, t.expiringSoon + x,
              t.missingOwner + m, t.stale + s, t.unresolved + e + x + m + s)
  {
    hide IsOwnerless, IsStale, Count, IsExpired, IsExpiring, IsActive;
    TallySnoc(items, it, now);
  }

  /** `for _, o := range owners`, then a sort by descending unresolved counts. */
  method ListOwners(owners: map<OwnerKey, OwnerSummary>, ghost items: seq<Item>, ghost now: Instant)
          returns (out: seq<OwnerSummary>)
    requires OwnersAre(owners, items, now)
    ensures OwnersListed(out, items, now) && Sorted(out, MoreUnresolved)
  {
    hide Count, KeyOf, KeyOfSummary, Charged, StableSort, NamedAsFirst;
    out := Range(owners, KeyOfSummary);
    RangeListsOwners(out, owners, items, now);
    UnresolvedOrdering();
    SortIsSorted(out, MoreUnresolved);
    SortIsPermutation(out, MoreUnresolved);
    ListedUpToOrder(out, StableSort(out, MoreUnresolved), items, now);
    out := StableSort(out, MoreUnresolved);
  }

  lemma RangeListsOwners(out: seq<OwnerSummary>, owners: map<OwnerKey, OwnerSummary>, items: seq<Item>, now: Instant)
    requires OwnersAre(owners, items, now) && Enumerates(out, owners, KeyOfSummary)
    ensures OwnersListed(out, items, now)
  {
    hide NamedAsFirst, KeyOf, Count, Charged;
  }

  lemma UnresolvedOrdering()
    ensures Ordering(MoreUnresolved)
  {
  }

  lemma ListedUpToOrder(s: seq<OwnerSummary>, t: seq<OwnerSummary>, items: seq<Item>, now: Instant)
    requires multiset(s) == multiset(t) && OwnersListed(s, items, now)
    ensures OwnersListed(t, items, now)
  {
    hide Count, KeyOf, KeyOfSummary, Charged, NamedAsFirst;
    SameMembers(s, t);
    forall k | 0 <= k < |t|
      ensures t[k].total == Count(items, Owned(KeyOfSummary(t[k]))) > 0
              && t[k].unresolved == Charged(items, now, KeyOfSummary(t[k])) && NamedAsFirst(t[k], items)
    {
      assert t[k] in s;
    }
    forall i | 0 <= i < |items| ensures ListsKey(t, KeyOf(items[i])) {
      assert ListsKey(s, KeyOf(items[i]));
      var k :| 0 <= k < |s| && KeyOfSummary(s[k]) == KeyOf(items[i]);
      assert s[k] in t;
      var m :| 0 <= m < |t| && t[m] == s[k];
    }
    KeysStayDistinct(s, t);
  }

  lemma KeysStayDistinct(s: seq<OwnerSummary>, t: seq<OwnerSummary>)
    requires multiset(s) == multiset(t)
    requires forall j, k :: 0 <= j < k < |s| ==> KeyOfSummary(s[j]) != KeyOfSummary(s[k])
    ensures forall j, k :: 0 <= j < k < |t| ==> KeyOfSummary(t[j]) != KeyOfSummary(t[k])
  {
    hide KeyOfSummary;
    SameMembers(s, t);
    CountsOfDistinct(s);
    forall j, k | 0 <= j < k < |t| ensures KeyOfSummary(t[j]) != KeyOfSummary(t[k]) {
      assert t[j] in s && t[k] in s;
      if t[j] == t[k] {
        TwiceCounts(t, j, k);
      }
    }
  }

  // ---- What the numbers mean ------------------------------------------------

  /** The items owned under the same trimmed address and name, with a property. */
  function OwnedPlaces(items: seq<Item>, o: OwnerSummary, p: Item -> bool): set<nat> {
    set i: nat | i < |items| && Text.TrimSpace(items[i].ownerEmail) == Text.TrimSpace(o.email)
                 && Text.TrimSpace(items[i].ownerName) == Text.TrimSpace(o.name) && p(items[i])
  }

  lemma OwnedCount(items: seq<Item>, o: OwnerSummary, p: Item -> bool)
    ensures Count(items, Both(Owned(KeyOfSummary(o)), p)) == |OwnedPlaces(items, o, p)|
  {
    CountIsPlaces(items, Both(Owned(KeyOfSummary(o)), p));
    assert Places(items, Both(Owned(KeyOfSummary(o)), p)) == OwnedPlaces(items, o, p);
  }

  /** The counts as numbers of items, in the items' own fields, and the score from them; the owners with most unresolved
      items come first, each with the numbers of its items. */
  lemma EvaluationMeans(s: Summary, items: seq<Item>, now: Instant)
    requires IsSummary(s, items, now)
    ensures s.expired == |WithStatus(items, "expired")| && s.expiringSoon == |WithStatus(items, "expiring")|
    ensures s.missingOwner == |WithoutOwner(items)| && s.stale == |NotUpdated(items, now)|
    ensures var score := 100 - 25 * s.expired - 10 * s.expiringSoon - 15 * s.missingOwner - 8 * s.stale
                         + |WithStatus(items, "active")|;
            s.score == if score < 0 then 0 else if score > 100 then 100 else score
    ensures forall j, k :: 0 <= j < k < |s.owners| ==> s.owners[j].unresolved >= s.owners[k].unresolved
    ensures forall k :: 0 <= k < |s.owners| ==>
              var o := s.owners[k];
              && o.total == |OwnedPlaces(items, o, Everything)| && NamedAsFirst(o, items)
              && o.unresolved == |OwnedPlaces(items, o, IsExpired)| + |OwnedPlaces(items, o, IsExpiring)|
                                 + |OwnedPlaces(items, o, StaleAt(now))|
  {
    hide IsOwnerless, IsStale, Count, KeyOfSummary, NamedAsFirst, OwnedPlaces, KeyOf, WithStatus, WithoutOwner,
      NotUpdated;
    StatusCounts(items);
    GapCounts(items, now);
    forall k | 0 <= k < |s.owners|
      ensures var o := s.owners[k];
              && o.total == |OwnedPlaces(items, o, Everything)|
              && o.unresolved == |OwnedPlaces(items, o, IsExpired)| + |OwnedPlaces(items, o, IsExpiring)|
                                 + |OwnedPlaces(items, o, StaleAt(now))|
    {
      var o := s.owners[k];
      SameCount(items, Owned(KeyOfSummary(o)), Both(Owned(KeyOfSummary(o)), Everything));
      OwnedCount(items, o, Everything);
      OwnedCount(items, o, IsExpired);
      OwnedCount(items, o, IsExpiring);
      OwnedCount(items, o, StaleAt(now));
    }
  }

  lemma StatusCounts(items: seq<Item>)
    ensures Count(items, IsExpiring) == |WithStatus(items, "expiring")|
    ensures Count(items, IsActive) == |WithStatus(items, "active")|
  {
    hide Count;
    CountIsPlaces(items, IsExpiring);
    CountIsPlaces(items, IsActive);
    assert Places(items, IsExpiring) == WithStatus(items, "expiring");
    assert Places(items, IsActive) == WithStatus(items, "active");
  }

  // ---- Conservation ---------------------------------------------------------

  function SumTotals(owners: seq<OwnerSummary>): nat {
    if owners == [] then 0 else SumTotals(owners[..|owners| - 1]) + owners[|owners| - 1].total
  }

  function SumUnresolved(owners: seq<OwnerSummary>): nat {
    if owners == [] then 0 else SumUnresolved(owners[..|owners| - 1]) + owners[|owners| - 1].unresolved
  }

  /** How many items with `p` the listed keys own together. */
  function SumOwned(keys: seq<OwnerKey>, items: seq<Item>, p: Item -> bool): nat {
    if keys == [] then 0 else SumOwned(keys[..|keys| - 1], items, p) + Count(items, Both(Owned(keys[|keys| - 1]), p))
  }

  predicate DistinctKeys(keys: seq<OwnerKey>) {
    forall j, k :: 0 <= j < k < |keys| ==> keys[j] != keys[k]
  }

  lemma {:induction false} OneKeyGrows(keys: seq<OwnerKey>, items: seq<Item>, it: Item, p: Item -> bool)
    requires DistinctKeys(keys)
    ensures SumOwned(keys, items + [it], p) == SumOwned(keys, items, p) + One(KeyOf(it) in keys && p(it))
  {
    hide KeyOf, Count;
    if keys != [] {
      var front, key := keys[..|keys| - 1], keys[|keys| - 1];
      OneKeyGrows(front, items, it, p);
      CountSnoc(items, it, Both(Owned(key), p));
      assert keys == front + [key];
      assert key !in front;
    }
  }

  /** Distinct keys that cover all items partition them. */
  lemma {:induction false} KeysPartition(keys: seq<OwnerKey>, items: seq<Item>, p: Item -> bool)
    requires DistinctKeys(keys) && forall i :: 0 <= i < |items| ==> KeyOf(items[i]) in keys
    ensures SumOwned(keys, items, p) == Count(items, p)
  {
    hide KeyOf;
    if items == [] {
      NothingOwned(keys, p);
    } else {
      var front, it := items[..|items| - 1], items[|items| - 1];
      KeysPartition(keys, front, p);
      assert items == front + [it];
      OneKeyGrows(keys, front, it, p);
    }
  }

  lemma {:induction false} NothingOwned(keys: seq<OwnerKey>, p: Item -> bool)
    ensures SumOwned(keys, [], p) == 0
  {
    if keys != [] {
      NothingOwned(keys[..|keys| - 1], p);
    }
  }

  function KeysOf(owners: seq<OwnerSummary>): seq<OwnerKey> {
    seq(|owners|, k requires 0 <= k < |owners| => KeyOfSummary(owners[k]))
  }

  lemma {:induction false} SumsAreOwned(owners: seq<OwnerSummary>, items: seq<Item>, now: Instant)
    requires forall k :: 0 <= k < |owners| ==>
               owners[k].total == Count(items, Owned(KeyOfSummary(owners[k])))
                 && owners[k].unresolved == Charged(items, now, KeyOfSummary(owners[k]))
    ensures SumTotals(owners) == SumOwned(KeysOf(owners), items, Everything)
    ensures SumUnresolved(owners)
            == SumOwned(KeysOf(owners), items, IsExpired) + SumOwned(KeysOf(owners), items, IsExpiring)
                                     + SumOwned(KeysOf(owners), items, StaleAt(now))
  {
    hide KeyOfSummary, Count, IsStale, KeyOf;
    if owners != [] {
      var front, o := owners[..|owners| - 1], owners[|owners| - 1];
      SumsAreOwned(front, items, now);
      assert KeysOf(owners) == KeysOf(front) + [KeyOfSummary(o)];
      assert KeysOf(owners)[..|owners| - 1] == KeysOf(front);
      SameCount(items, Owned(KeyOfSummary(o)), Both(Owned(KeyOfSummary(o)), Everything));
    }
  }

  lemma {:induction false} SameCount(items: seq<Item>, p: Item -> bool, q: Item -> bool)
    requires forall it :: p(it) == q(it)
    ensures Count(items, p) == Count(items, q)
  {
    if items != [] {
      SameCount(items[..|items| - 1], p, q);
    }
  }

  lemma {:induction false} CountAll(items: seq<Item>)
    ensures Count(items, Everything) == |items|
  {
    if items != [] {
      CountAll(items[..|items| - 1]);
    }
  }

  /** Main result: the split by owner loses nothing. The totals add up to the number of items, the unresolved
      counts to the unresolved problems other than missing owners, and the score is the clamped linear form. */
  lemma EvaluationConserves(s: Summary, items: seq<Item>, now: Instant)
    requires IsSummary(s, items, now)
    ensures SumTotals(s.owners) == |items|
    ensures SumUnresolved(s.owners) == s.unresolved - s.missingOwner
    ensures s.unresolved == s.expired + s.expiringSoon + s.missingOwner + s.stale
    ensures 0 <= s.score <= 100
    ensures s.score == Clamp(100 - 25 * s.expired - 10 * s.expiringSoon - 15 * s.missingOwner - 8 * s.stale
            + Count(items, IsActive))
  {
    hide KeyOfSummary, Count, IsStale, KeyOf, Charged, IsOwnerless, IsExpired, IsExpiring, IsActive, SumOwned,
      SumTotals, SumUnresolved, NamedAsFirst;
    var keys := KeysOf(s.owners);
    forall i | 0 <= i < |items| ensures KeyOf(items[i]) in keys {
      assert ListsKey(s.owners, KeyOf(items[i]));
      var k :| 0 <= k < |s.owners| && KeyOfSummary(s.owners[k]) == KeyOf(items[i]);
      assert keys[k] == KeyOf(items[i]);
    }
    SumsAreOwned(s.owners, items, now);
    KeysPartition(keys, items, Everything);
    KeysPartition(keys, items, IsExpired);
    KeysPartition(keys, items, IsExpiring);
    KeysPartition(keys, items, StaleAt(now));
    CountAll(items);
  }

  /** The list charges the same owner with the same numbers. */
  ghost predicate ListsAlike(owners: seq<OwnerSummary>, o: OwnerSummary) {
    exists m :: 0 <= m < |owners| && KeyOfSummary(owners[m]) == KeyOfSummary(o) && owners[m].total == o.total
      && owners[m].unresolved == o.unresolved
  }

  /** Permuting the items changes neither the counts and the score nor any owner's totals. */
  lemma EvaluationUpToOrder(s: Summary, items: seq<Item>, s': Summary, items': seq<Item>, now: Instant)
    requires multiset(items) == multiset(items') && IsSummary(s, items, now) && IsSummary(s', items', now)
    ensures s'.(owners := s.owners) == s
    ensures forall k :: 0 <= k < |s.owners| ==> ListsAlike(s'.owners, s.owners[k])
  {
    hide KeyOfSummary, Count, IsStale, KeyOf, IsOwnerless, IsExpired, IsExpiring, IsActive, Sorted, NamedAsFirst;
    CountUpToOrder(items, items', IsExpired);
    CountUpToOrder(items, items', IsExpiring);
    CountUpToOrder(items, items', IsOwnerless);
    CountUpToOrder(items, items', IsActive);
    CountUpToOrder(items, items', StaleAt(now));
    forall k | 0 <= k < |s.owners|
      ensures ListsAlike(s'.owners, s.owners[k])
    {
      var m := SameOwner(s.owners, items, s'.owners, items', now, k);
    }
  }

  lemma SameOwner(owners: seq<OwnerSummary>, items: seq<Item>, owners': seq<OwnerSummary>, items': seq<Item>,
          now: Instant, k: nat) returns (m: nat)
    requires multiset(items) == multiset(items') && OwnersListed(owners, items, now)
             && OwnersListed(owners', items', now) && k < |owners|
    ensures m < |owners'| && KeyOfSummary(owners'[m]) == KeyOfSummary(owners[k])
    ensures owners'[m].total == owners[k].total && owners'[m].unresolved == owners[k].unresolved
  {
    hide KeyOfSummary, Count, IsStale, KeyOf, NamedAsFirst;
    var key := KeyOfSummary(owners[k]);
    CountPositive(items, Owned(key));
    var i :| 0 <= i < |items| && KeyOf(items[i]) == key;
    SameMembers(items, items');
    assert items[i] in items';
    var j :| 0 <= j < |items'| && items'[j] == items[i];
    assert ListsKey(owners', KeyOf(items'[j]));
    m :| 0 <= m < |owners'| && KeyOfSummary(owners'[m]) == KeyOf(items'[j]);
    CountUpToOrder(items, items', Owned(key));
    CountUpToOrder(items, items', Both(Owned(key), IsExpired));
    CountUpToOrder(items, items', Both(Owned(key), IsExpiring));
    CountUpToOrder(items, items', Both(Owned(key), StaleAt(now)));
  }
}

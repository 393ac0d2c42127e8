/** Maps keyed by an identifier inside the value, filled one value after the other, and the lists that
    ranging over such a map may produce. */
module Keyed {
  import opened Sorting

  /** The map after these values were stored in order, later ones overwriting earlier ones. */
  function Put<V>(log: seq<V>, id: V -> string): map<string, V> {
    if log == [] then map[]
    else Put(log[..|log| - 1], id)[id(log[|log| - 1]) := log[|log| - 1]]
  }

  lemma PutSnoc<V>(log: seq<V>, v: V, id: V -> string)
    ensures Put(log + [v], id) == Put(log, id)[id(v) := v]
  {
  }

  function Ids<V>(log: seq<V>, id: V -> string): set<string> {
    set k | 0 <= k < |log| :: id(log[k])
  }

  lemma IdsConcat<V>(a: seq<V>, b: seq<V>, id: V -> string)
    ensures Ids(a + b, id) == Ids(a, id) + Ids(b, id)
  {
    forall x
      ensures x in Ids(a + b, id) <==> x in Ids(a, id) + Ids(b, id)
    {
      if x in Ids(a, id) {
        var k :| 0 <= k < |a| && id(a[k]) == x;
        assert (a + b)[k] == a[k];
      }
      if x in Ids(b, id) {
        var k :| 0 <= k < |b| && id(b[k]) == x;
        assert (a + b)[|a| + k] == b[k];
      }
    }
  }

  /** A value sits under its own identifier, every identifier that was stored is there, and only stored values are. */
  lemma {:induction false} PutHolds<V>(log: seq<V>, id: V -> string)
    ensures Put(log, id).Keys == Ids(log, id)
    ensures forall k :: k in Put(log, id) ==> id(Put(log, id)[k]) == k && Put(log, id)[k] in log
  {
    if log != [] {
      var front, v := log[..|log| - 1], log[|log| - 1];
      PutHolds(front, id);
      assert log == front + [v];
      IdsConcat(front, [v], id);
      assert Ids([v], id) == {id(v)} by {
        assert [v][0] == v;
      }
    }
  }

  // ---- Ranging over the map -------------------------------------------------

  predicate NoDuplicates<V(==)>(s: seq<V>) {
    forall i, j :: 0 <= i < j < |s| ==> s[i] != s[j]
  }

  /** `s` holds every value of the map once. */
  ghost predicate Enumerates<K, V(!new)>(s: seq<V>, m: map<K, V>, id: V -> K) {
    && NoDuplicates(s)
    && forall v :: v in s <==> id(v) in m && m[id(v)] == v
  }

  /** `for _, v := range m`: the order is arbitrary. */
  method Range<K(==), V(!new)>(m: map<K, V>, ghost id: V -> K) returns (s: seq<V>)
    requires forall k :: k in m ==> id(m[k]) == k
    ensures Enumerates(s, m, id)
  {
    s := [];
    var remaining := m.Keys;
    while remaining != {}
      invariant remaining <= m.Keys
      invariant NoDuplicates(s)
      invariant forall v :: v in s <==> id(v) in m && m[id(v)] == v && id(v) !in remaining
      decreases |remaining|
    {
      var k :| k in remaining;
      s := s + [m[k]];
      remaining := remaining - {k};
    }
  }

  lemma {:induction false} CountsOfDistinct<V>(s: seq<V>)
    requires NoDuplicates(s)
    ensures forall v :: multiset(s)[v] == if v in s then 1 else 0
  {
    if s != [] {
      var front, x := s[..|s| - 1], s[|s| - 1];
      CountsOfDistinct(front);
      assert s == front + [x];
      assert x !in front;
    }
  }

  lemma TwiceCounts<V>(t: seq<V>, i: nat, j: nat)
    requires i < j < |t| && t[i] == t[j]
    ensures multiset(t)[t[i]] >= 2
  {
    assert t == t[..i] + [t[i]] + t[i + 1..j] + [t[j]] + t[j + 1..];
  }

  lemma SameDistinctMembers<V>(s: seq<V>, t: seq<V>)
    requires NoDuplicates(s) && NoDuplicates(t)
    requires forall v :: v in s <==> v in t
    ensures multiset(s) == multiset(t)
  {
    CountsOfDistinct(s);
    CountsOfDistinct(t);
  }

  /** Two traversals of one map differ in order only. */
  lemma EnumerationsAgree<K, V(!new)>(s: seq<V>, t: seq<V>, m: map<K, V>, id: V -> K)
    requires Enumerates(s, m, id) && Enumerates(t, m, id)
    ensures multiset(s) == multiset(t)
  {
    SameDistinctMembers(s, t);
  }

  // ---- The canonical list ---------------------------------------------------

  function OtherThan<V>(id: V -> string, key: string): V -> bool {
    v => id(v) != key
  }

  /** The stored values that were not overwritten, in the order of their last storing. */
  function Survivors<V>(log: seq<V>, id: V -> string): seq<V> {
    if log == [] then []
    else
      var v := log[|log| - 1];
      Filter(Survivors(log[..|log| - 1], id), OtherThan(id, id(v))) + [v]
  }

  lemma {:induction false} FilterKeepsDistinct<V>(s: seq<V>, p: V -> bool)
    requires NoDuplicates(s)
    ensures NoDuplicates(Filter(s, p))
  {
    if s != [] {
      FilterKeepsDistinct(s[..|s| - 1], p);
      FilterMembers(s[..|s| - 1], p);
      assert s[|s| - 1] !in s[..|s| - 1];
    }
  }

  lemma {:induction false} SurvivorsEnumerate<V(!new)>(log: seq<V>, id: V -> string)
    ensures Enumerates(Survivors(log, id), Put(log, id), id)
  {
    if log != [] {
      var front, v := log[..|log| - 1], log[|log| - 1];
      SurvivorsEnumerate(front, id);
      var s := Survivors(front, id);
      FilterKeepsDistinct(s, OtherThan(id, id(v)));
      FilterMembers(s, OtherThan(id, id(v)));
    }
  }

  /** Sorting with a comparator that separates all values gives one list, whatever order the traversal took. */
  lemma TraversalDoesNotMatter<V(!new)>(s: seq<V>, log: seq<V>, id: V -> string, less: (V, V) -> bool)
    requires Enumerates(s, Put(log, id), id) && Ordering(less) && Separates(s, less)
    ensures StableSort(s, less) == StableSort(Survivors(log, id), less)
  {
    var t := Survivors(log, id);
    SurvivorsEnumerate(log, id);
    EnumerationsAgree(s, t, Put(log, id), id);
    SortIsPermutation(s, less);
    SortIsPermutation(t, less);
    SortIsSorted(s, less);
    SortIsSorted(t, less);
    SeparatesUpToOrder(s, StableSort(s, less), less);
    SortedIsUnique(StableSort(s, less), StableSort(t, less), less);
  }

  lemma SeparatesUpToOrder<V>(s: seq<V>, t: seq<V>, less: (V, V) -> bool)
    requires multiset(s) == multiset(t) && Separates(s, less)
    ensures Separates(t, less)
  {
    SameMembers(s, t);
    forall i, j | 0 <= i < |t| && 0 <= j < |t| && t[i] != t[j]
      ensures less(t[i], t[j]) || less(t[j], t[i])
    {
      assert t[i] in s && t[j] in s;
    }
  }
}

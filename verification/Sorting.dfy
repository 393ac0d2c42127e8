/** Sequences: order-preserving filtering, counting, and `sort.SliceStable` as the library specifies it. */
module Sorting {

  // ---- Prefixes and indicators ----------------------------------------------

  /** At most the first `n` elements. */
  function AtMost<T>(s: seq<T>, n: nat): seq<T> {
    if |s| > n then s[..n] else s
  }

  function One(b: bool): nat { if b then 1 else 0 }

  // ---- Filtering and counting -----------------------------------------------

  function Filter<T>(s: seq<T>, p: T -> bool): seq<T> {
    if s == [] then []
    else Filter(s[..|s| - 1], p) + if p(s[|s| - 1]) then [s[|s| - 1]] else []
  }

  function Count<T>(s: seq<T>, p: T -> bool): nat {
    if s == [] then 0
    else Count(s[..|s| - 1], p) + if p(s[|s| - 1]) then 1 else 0
  }

  lemma FilterSnoc<T>(s: seq<T>, x: T, p: T -> bool)
    ensures Filter(s + [x], p) == Filter(s, p) + if p(x) then [x] else []
  {
  }

  lemma {:induction false} FilterConcat<T>(s: seq<T>, t: seq<T>, p: T -> bool)
    ensures Filter(s + t, p) == Filter(s, p) + Filter(t, p)
    decreases |t|
  {
    if t == [] {
      assert s + t == s;
    } else {
      var u, x := t[..|t| - 1], t[|t| - 1];
      FilterConcat(s, u, p);
      assert s + t == (s + u) + [x];
      FilterSnoc(s + u, x, p);
    }
  }

  lemma CountSnoc<T>(s: seq<T>, x: T, p: T -> bool)
    ensures Count(s + [x], p) == Count(s, p) + if p(x) then 1 else 0
  {
  }

  lemma {:induction false} CountConcat<T>(s: seq<T>, t: seq<T>, p: T -> bool)
    ensures Count(s + t, p) == Count(s, p) + Count(t, p)
    decreases |t|
  {
    if t == [] {
      assert s + t == s;
    } else {
      var u, x := t[..|t| - 1], t[|t| - 1];
      CountConcat(s, u, p);
      assert s + t == (s + u) + [x];
      CountSnoc(s + u, x, p);
    }
  }

  lemma {:induction false} CountPositive<T>(s: seq<T>, p: T -> bool)
    ensures Count(s, p) > 0 <==> exists i :: 0 <= i < |s| && p(s[i])
  {
    if s != [] {
      CountPositive(s[..|s| - 1], p);
    }
  }

  function Places<T>(s: seq<T>, p: T -> bool): set<nat> {
    set k: nat | k < |s| && p(s[k])
  }

  /** A count is the number of places at which the property holds. */
  lemma {:induction false} CountIsPlaces<T>(s: seq<T>, p: T -> bool)
    ensures Count(s, p) == |Places(s, p)|
  {
    if s == [] {
      assert Places(s, p) == {};
    } else {
      var n := |s| - 1;
      CountIsPlaces(s[..n], p);
      assert Places(s, p) == Places(s[..n], p) + if p(s[n]) then {n} else {};
    }
  }

  lemma {:induction false} CountIsFilterLength<T>(s: seq<T>, p: T -> bool)
    ensures Count(s, p) == |Filter(s, p)|
  {
    if s != [] {
      CountIsFilterLength(s[..|s| - 1], p);
    }
  }

  lemma {:induction false} FilterMembers<T>(s: seq<T>, p: T -> bool)
    ensures forall x :: x in Filter(s, p) <==> x in s && p(x)
  {
    if s != [] {
      FilterMembers(s[..|s| - 1], p);
      assert s == s[..|s| - 1] + [s[|s| - 1]];
    }
  }

  /** The places, in order, of what a filter keeps. */
  ghost predicate ArePlaces<T>(at: seq<nat>, s: seq<T>, p: T -> bool, kept: seq<T>) {
    && |at| == |kept|
    && (forall j :: 0 <= j < |at| ==> at[j] in Places(s, p) && kept[j] == s[at[j]])
    && (forall j, k :: 0 <= j < k < |at| ==> at[j] < at[k])
  }

  lemma {:induction false} FilterPlaces<T>(s: seq<T>, p: T -> bool) returns (at: seq<nat>)
    ensures ArePlaces(at, s, p, Filter(s, p))
    ensures forall k :: k in Places(s, p) ==> k in at
  {
    hide Places, ArePlaces, Filter;
    if s == [] {
      at := [];
      NoPlaces(p);
    } else {
      var front, x := s[..|s| - 1], s[|s| - 1];
      at := FilterPlaces(front, p);
      OneMorePlace(at, front, x, p, Filter(front, p));
      FilterSnoc(front, x, p);
      assert s == front + [x];
      at := if p(x) then at + [|front|] else at;
    }
  }

  lemma NoPlaces<T>(p: T -> bool)
    ensures ArePlaces([], [], p, Filter([], p)) && Places([], p) == {}
  {
  }

  lemma OneMorePlace<T>(at: seq<nat>, front: seq<T>, x: T, p: T -> bool, kept: seq<T>)
    requires ArePlaces(at, front, p, kept)
    ensures Places(front + [x], p) == Places(front, p) + if p(x) then {|front|} else {}
    ensures ArePlaces(if p(x) then at + [|front|] else at, front + [x], p, kept + if p(x) then [x] else [])
    ensures p(x) ==> (forall k :: k in at + [|front|] <==> k in at || k == |front|)
  {
    hide Filter;
  }

  lemma {:induction false} FilterOrigin<T>(s: seq<T>, p: T -> bool, i: nat) returns (k: nat)
    requires i < |Filter(s, p)|
    ensures k < |s| && s[k] == Filter(s, p)[i] && p(s[k])
  {
    k := |s| - 1;
    if i < |Filter(s[..|s| - 1], p)| {
      k := FilterOrigin(s[..|s| - 1], p, i);
    }
  }

  lemma RemoveAt<T>(t: seq<T>, i: nat)
    requires i < |t|
    ensures multiset(t[..i] + t[i + 1..]) == multiset(t) - multiset{t[i]}
  {
    assert t == t[..i] + [t[i]] + t[i + 1..];
  }

  lemma CountWithout<T>(t: seq<T>, i: nat, p: T -> bool)
    requires i < |t|
    ensures Count(t, p) == Count(t[..i] + t[i + 1..], p) + if p(t[i]) then 1 else 0
  {
    hide Count;
    var a, x, b := t[..i], t[i], t[i + 1..];
    assert t == (a + [x]) + b;
    CountSnoc(a, x, p);
    CountConcat(a + [x], b, p);
    CountConcat(a, b, p);
  }

  /** Counting does not depend on the order. */
  lemma {:induction false} CountUpToOrder<T>(s: seq<T>, t: seq<T>, p: T -> bool)
    requires multiset(s) == multiset(t)
    ensures Count(s, p) == Count(t, p)
  {
    if s == [] {
      assert |multiset(t)| == 0;
    } else {
      var n := |s| - 1;
      var x := s[n];
      assert x in multiset(t);
      var i :| 0 <= i < |t| && t[i] == x;
      RemoveAt(s, n);
      RemoveAt(t, i);
      assert s[..n] + s[n + 1..] == s[..n];
      CountUpToOrder(s[..n], t[..i] + t[i + 1..], p);
      CountWithout(t, i, p);
    }
  }

  // ---- Sorting --------------------------------------------------------------

  /** A comparator `sort.SliceStable` may be given: "not less" is a total preorder. */
  ghost predicate Ordering<T(!new)>(less: (T, T) -> bool) {
    && (forall a, b :: !(less(a, b) && less(b, a)))
    && (forall a, b, c :: !less(b, a) && !less(c, b) ==> !less(c, a))
  }

  predicate Sorted<T>(s: seq<T>, less: (T, T) -> bool) {
    forall i, j :: 0 <= i < j < |s| ==> !less(s[j], s[i])
  }

  /** `x`, which came first, goes in front of everything it does not have to follow. */
  function Insert<T>(x: T, s: seq<T>, less: (T, T) -> bool): seq<T> {
    if s == [] || !less(s[0], x) then [x] + s else [s[0]] + Insert(x, s[1..], less)
  }

  /** The result of `sort.SliceStable`: see `SortIsPermutation`, `SortIsSorted` and `SortIsStable`. */
  function StableSort<T>(s: seq<T>, less: (T, T) -> bool): seq<T> {
    if s == [] then [] else Insert(s[0], StableSort(s[1..], less), less)
  }

  lemma {:induction false} InsertIsPermutation<T>(x: T, s: seq<T>, less: (T, T) -> bool)
    ensures multiset(Insert(x, s, less)) == multiset{x} + multiset(s)
  {
    if s != [] && less(s[0], x) {
      InsertIsPermutation(x, s[1..], less);
      assert s == [s[0]] + s[1..];
    }
  }

  lemma {:induction false} SortIsPermutation<T>(s: seq<T>, less: (T, T) -> bool)
    ensures multiset(StableSort(s, less)) == multiset(s)
    ensures |StableSort(s, less)| == |s|
  {
    if s != [] {
      SortIsPermutation(s[1..], less);
      InsertIsPermutation(s[0], StableSort(s[1..], less), less);
      assert s == [s[0]] + s[1..];
    }
    assert |multiset(StableSort(s, less))| == |multiset(s)|;
  }

  lemma SameMembers<T>(s: seq<T>, t: seq<T>)
    requires multiset(s) == multiset(t)
    ensures forall x :: x in s <==> x in t
  {
    forall x
      ensures x in s <==> x in t
    {
      assert x in multiset(s) <==> x in multiset(t);
    }
  }

  lemma {:induction false} InsertIsSorted<T(!new)>(x: T, s: seq<T>, less: (T, T) -> bool)
    requires Ordering(less) && Sorted(s, less)
    ensures Sorted(Insert(x, s, less), less)
  {
    if s != [] && less(s[0], x) {
      var rest := Insert(x, s[1..], less);
      InsertIsSorted(x, s[1..], less);
      InsertIsPermutation(x, s[1..], less);
      forall j | 0 <= j < |rest|
        ensures !less(rest[j], s[0])
      {
        assert rest[j] in multiset(rest);
        if rest[j] != x {
          assert rest[j] in s[1..];
        }
      }
    } else if s != [] {
      assert forall j :: 0 <= j < |s| ==> !less(s[j], x);
    }
  }

  lemma {:induction false} SortIsSorted<T(!new)>(s: seq<T>, less: (T, T) -> bool)
    requires Ordering(less)
    ensures Sorted(StableSort(s, less), less)
  {
    if s != [] {
      SortIsSorted(s[1..], less);
      InsertIsSorted(s[0], StableSort(s[1..], less), less);
    }
  }

  lemma {:induction false} SortFixesSorted<T>(s: seq<T>, less: (T, T) -> bool)
    requires Sorted(s, less)
    ensures StableSort(s, less) == s
  {
    if s != [] {
      SortFixesSorted(s[1..], less);
      assert s == [s[0]] + s[1..];
    }
  }

  /** Elements that the comparator cannot tell apart keep their order. */
  lemma {:induction false} SortIsStable<T(!new)>(s: seq<T>, less: (T, T) -> bool, same: T -> bool)
    requires forall a, b :: same(a) && same(b) ==> !less(a, b)
    ensures Filter(StableSort(s, less), same) == Filter(s, same)
  {
    if s != [] {
      SortIsStable(s[1..], less, same);
      InsertIsStable(s[0], StableSort(s[1..], less), less, same);
      assert s == [s[0]] + s[1..];
      FilterConcat([s[0]], s[1..], same);
    }
  }

  lemma {:induction false} InsertIsStable<T(!new)>(x: T, s: seq<T>, less: (T, T) -> bool, same: T -> bool)
    requires forall a, b :: same(a) && same(b) ==> !less(a, b)
    ensures Filter(Insert(x, s, less), same) == Filter([x], same) + Filter(s, same)
  {
    if s != [] && less(s[0], x) {
      var rest := s[1..];
      InsertIsStable(x, rest, less, same);
      FilterConcat([s[0]], Insert(x, rest, less), same);
      FilterConcat([s[0]], rest, same);
      assert s == [s[0]] + rest;
      assert !same(s[0]) || !same(x);
      assert Filter([s[0]], same) == if same(s[0]) then [s[0]] else [];
      assert Filter([x], same) == if same(x) then [x] else [];
    } else {
      FilterConcat([x], s, same);
    }
  }

  /** The comparator separates any two different members. */
  ghost predicate Separates<T>(s: seq<T>, less: (T, T) -> bool) {
    forall i, j :: 0 <= i < |s| && 0 <= j < |s| && s[i] != s[j] ==> less(s[i], s[j]) || less(s[j], s[i])
  }

  lemma SameHead<T>(s: seq<T>, t: seq<T>, less: (T, T) -> bool)
    requires multiset(s) == multiset(t) && s != [] && t != []
    requires Sorted(s, less) && Sorted(t, less) && Separates(s, less)
    ensures s[0] == t[0]
  {
    SameMembers(s, t);
    assert t[0] in s && s[0] in t;
    var i :| 0 <= i < |s| && s[i] == t[0];
    var j :| 0 <= j < |t| && t[j] == s[0];
    assert i > 0 ==> !less(s[i], s[0]);
    assert j > 0 ==> !less(t[j], t[0]);
  }

  lemma SameLength<T>(s: seq<T>, t: seq<T>)
    requires multiset(s) == multiset(t)
    ensures |s| == |t|
  {
    assert |multiset(s)| == |s| && |multiset(t)| == |t|;
  }

  lemma SameTails<T>(s: seq<T>, t: seq<T>)
    requires s != [] && t != [] && s[0] == t[0] && multiset(s) == multiset(t)
    ensures multiset(s[1..]) == multiset(t[1..])
  {
    assert s == [s[0]] + s[1..] && t == [t[0]] + t[1..];
    assert multiset(s[1..]) == multiset(s) - multiset{s[0]};
    assert multiset(t[1..]) == multiset(t) - multiset{t[0]};
  }

  lemma TailSorted<T>(s: seq<T>, less: (T, T) -> bool)
    requires s != []
    ensures Sorted(s, less) ==> Sorted(s[1..], less)
    ensures Separates(s, less) ==> Separates(s[1..], less)
  {
  }

  lemma SameCons<T>(s: seq<T>, t: seq<T>)
    requires s != [] && t != [] && s[0] == t[0] && s[1..] == t[1..]
    ensures s == t
  {
  }

  /** When the comparator separates all members, there is only one sorted arrangement of them. */
  lemma {:induction false} SortedIsUnique<T>(s: seq<T>, t: seq<T>, less: (T, T) -> bool)
    requires multiset(s) == multiset(t)
    requires Sorted(s, less) && Sorted(t, less) && Separates(s, less)
    ensures s == t
    decreases |s|
  {
    SameLength(s, t);
    if s != [] {
      SameHead(s, t, less);
      SameTails(s, t);
      TailSorted(s, less);
      TailSorted(t, less);
      SortedIsUnique(s[1..], t[1..], less);
      SameCons(s, t);
    }
  }
}

/** Vocabulary shared by the modules: optional values, filtering, the stable sort
    behind Python's `list.sort(key=…)`, and the first-minimum of `min(…, key=…)`. */
module Common {

  datatype Option<+T> = None | Some(value: T) {
    function GetOr(default: T): T {
      match this
      case Some(v) => v
      case None => default
    }
  }

  /** The elements that pass `keep`, in order. */
  function Filter<T>(s: seq<T>, keep: T -> bool): seq<T> {
    if s == [] then [] else
      var rest := Filter(s[..|s| - 1], keep);
      if keep(s[|s| - 1]) then rest + [s[|s| - 1]] else rest
  }

  lemma FilterStep<T>(s: seq<T>, k: nat, keep: T -> bool)
    requires k < |s|
    ensures Filter(s[..k + 1], keep) == if keep(s[k]) then Filter(s[..k], keep) + [s[k]] else Filter(s[..k], keep)
  {
    assert s[..k + 1][..k] == s[..k];
  }

  lemma {:induction false} FilterMember<T>(s: seq<T>, keep: T -> bool)
    ensures forall x | x in Filter(s, keep) :: x in s && keep(x)
    ensures forall x | x in s && keep(x) :: x in Filter(s, keep)
  {
    if s != [] {
      FilterMember(s[..|s| - 1], keep);
      assert s == s[..|s| - 1] + [s[|s| - 1]];
    }
  }

  /** Filters that agree on the elements at hand give the same list. */
  lemma {:induction false} FilterAgree<T>(s: seq<T>, p: T -> bool, q: T -> bool)
    requires forall x | x in s :: p(x) == q(x)
    ensures Filter(s, p) == Filter(s, q)
  {
    if s != [] {
      FilterAgree(s[..|s| - 1], p, q);
    }
  }

  lemma {:induction false} FilterAll<T>(s: seq<T>, p: T -> bool)
    requires forall x | x in s :: p(x)
    ensures Filter(s, p) == s
  {
    if s != [] {
      FilterAll(s[..|s| - 1], p);
    }
  }

  lemma {:induction false} FilterNone<T>(s: seq<T>, p: T -> bool)
    requires forall x | x in s :: !p(x)
    ensures Filter(s, p) == []
  {
    if s != [] {
      FilterNone(s[..|s| - 1], p);
    }
  }

  /** Filtering twice is filtering by the conjunction. */
  lemma {:induction false} FilterTwice<T>(s: seq<T>, p: T -> bool, q: T -> bool, both: T -> bool)
    requires forall x | x in s :: both(x) == (p(x) && q(x))
    ensures Filter(Filter(s, p), q) == Filter(s, both)
  {
    if s != [] {
      var n := |s| - 1;
      FilterTwice(s[..n], p, q, both);
      if p(s[n]) {
        var rest := Filter(s[..n], p);
        assert (rest + [s[n]])[..|rest|] == rest;
      }
    }
  }

  /** Keys of distinct elements are distinct. */
  ghost predicate DistinctKeys<T, K>(s: seq<T>, key: T -> K) {
    forall i, j | 0 <= i < j < |s| :: key(s[i]) != key(s[j])
  }

  lemma {:induction false} FilterDistinct<T, K>(s: seq<T>, keep: T -> bool, key: T -> K)
    requires DistinctKeys(s, key)
    ensures DistinctKeys(Filter(s, keep), key)
  {
    if s != [] {
      var n := |s| - 1;
      FilterDistinct(s[..n], keep, key);
      FilterMember(s[..n], keep);
      var rest := Filter(s[..n], keep);
      forall i | 0 <= i < |rest| ensures key(rest[i]) != key(s[n]) {
        assert rest[i] in rest;
        assert rest[i] in s[..n];
      }
    }
  }

  // --- the stable sort -------------------------------------------------------

  /** Put `x` into a sorted list, behind every element whose key does not exceed its own. */
  function Insert<T>(s: seq<T>, x: T, key: T -> real): seq<T> {
    if s == [] then [x]
    else if key(s[|s| - 1]) <= key(x) then s + [x]
    else Insert(s[..|s| - 1], x, key) + [s[|s| - 1]]
  }

  /** `sorted(s, key=key)`: ascending, equal keys in their original order. */
  function StableSort<T>(s: seq<T>, key: T -> real): seq<T> {
    if s == [] then [] else Insert(StableSort(s[..|s| - 1], key), s[|s| - 1], key)
  }

  ghost predicate Sorted<T>(s: seq<T>, key: T -> real) {
    forall i, j | 0 <= i < j < |s| :: key(s[i]) <= key(s[j])
  }

  ghost predicate StrictlySorted<T>(s: seq<T>, key: T -> real) {
    forall i, j | 0 <= i < j < |s| :: key(s[i]) < key(s[j])
  }

  lemma {:induction false} InsertSorted<T>(s: seq<T>, x: T, key: T -> real)
    requires Sorted(s, key)
    ensures Sorted(Insert(s, x, key), key)
  {
    if s != [] && key(s[|s| - 1]) > key(x) {
      var n := |s| - 1;
      InsertSorted(s[..n], x, key);
      InsertMember(s[..n], x, key);
      var r := Insert(s[..n], x, key);
      forall i | 0 <= i < |r| ensures key(r[i]) <= key(s[n]) {
        assert r[i] in r;
        assert r[i] in s[..n] || r[i] == x;
      }
    }
  }

  lemma {:induction false} InsertMultiset<T>(s: seq<T>, x: T, key: T -> real)
    ensures multiset(Insert(s, x, key)) == multiset(s) + multiset{x}
  {
    if s != [] && key(s[|s| - 1]) > key(x) {
      var n := |s| - 1;
      InsertMultiset(s[..n], x, key);
      assert s == s[..n] + [s[n]];
    }
  }

  lemma {:induction false} InsertMember<T>(s: seq<T>, x: T, key: T -> real)
    ensures forall y | y in Insert(s, x, key) :: y in s || y == x
    ensures forall y | y in s || y == x :: y in Insert(s, x, key)
  {
    if s != [] && key(s[|s| - 1]) > key(x) {
      var n := |s| - 1;
      InsertMember(s[..n], x, key);
      assert s == s[..n] + [s[n]];
    }
  }

  /** The sort returns its input rearranged into ascending order. */
  lemma SortStep<T>(s: seq<T>, key: T -> real)
    requires s != []
    ensures StableSort(s, key) == Insert(StableSort(s[..|s| - 1], key), s[|s| - 1], key)
  {
  }

  lemma SameSize<T>(a: seq<T>, b: seq<T>)
    requires multiset(a) == multiset(b)
    ensures |a| == |b|
  {
    assert |multiset(a)| == |multiset(b)|;
  }

  lemma {:induction false} StableSortSpec<T>(s: seq<T>, key: T -> real)
    ensures Sorted(StableSort(s, key), key)
    ensures multiset(StableSort(s, key)) == multiset(s)
    ensures |StableSort(s, key)| == |s|
  {
    if s != [] {
      hide StableSort, Insert, Sorted;
      var n := |s| - 1;
      var t := StableSort(s[..n], key);
      StableSortSpec(s[..n], key);
      SortStep(s, key);
      InsertSorted(t, s[n], key);
      InsertMultiset(t, s[n], key);
      assert s == s[..n] + [s[n]];
      assert multiset(StableSort(s, key)) == multiset(s);
      SameSize(StableSort(s, key), s);
    }
  }

  lemma SortMember<T>(s: seq<T>, key: T -> real)
    ensures forall x | x in StableSort(s, key) :: x in s
    ensures forall x | x in s :: x in StableSort(s, key)
  {
    StableSortSpec(s, key);
    forall x | x in StableSort(s, key) ensures x in s {
      assert x in multiset(StableSort(s, key));
    }
    forall x | x in s ensures x in StableSort(s, key) {
      assert x in multiset(s);
    }
  }

  /** … and elements with equal keys keep their order: sorting never reorders a filter
      that only lets one key through. */
  lemma {:induction false} StableSortStable<T>(s: seq<T>, key: T -> real, k: real, same: T -> bool)
    requires forall x :: same(x) <==> key(x) == k
    ensures Filter(StableSort(s, key), same) == Filter(s, same)
  {
    if s != [] {
      var n := |s| - 1;
      StableSortStable(s[..n], key, k, same);
      StableSortSpec(s[..n], key);
      InsertStable(StableSort(s[..n], key), s[n], key, k, same);
    }
  }

  lemma {:induction false} InsertStable<T>(s: seq<T>, x: T, key: T -> real, k: real, same: T -> bool)
    requires Sorted(s, key)
    requires forall y :: same(y) <==> key(y) == k
    ensures Filter(Insert(s, x, key), same) == if same(x) then Filter(s, same) + [x] else Filter(s, same)
  {
    if s == [] {
      FilterSnoc([], x, same);
    } else if key(s[|s| - 1]) <= key(x) {
      FilterSnoc(s, x, same);
    } else {
      var n := |s| - 1;
      InsertStable(s[..n], x, key, k, same);
      FilterSnoc(Insert(s[..n], x, key), s[n], same);
    }
  }

  lemma FilterSnoc<T>(s: seq<T>, x: T, keep: T -> bool)
    ensures Filter(s + [x], keep) == if keep(x) then Filter(s, keep) + [x] else Filter(s, keep)
  {
    assert (s + [x])[..|s|] == s;
  }

  /** Ascending by `first`, and by `second` among equals. */
  ghost predicate SortedByBoth<T>(s: seq<T>, first: T -> real, second: T -> real) {
    Sorted(s, first) && forall i, j | 0 <= i < j < |s| && first(s[i]) == first(s[j]) :: second(s[i]) <= second(s[j])
  }

  lemma {:induction false} InsertByBoth<T>(s: seq<T>, x: T, first: T -> real, second: T -> real)
    requires SortedByBoth(s, first, second) && forall i | 0 <= i < |s| :: second(s[i]) <= second(x)
    ensures SortedByBoth(Insert(s, x, first), first, second)
  {
    InsertSorted(s, x, first);
    if s != [] && first(s[|s| - 1]) > first(x) {
      var n := |s| - 1;
      InsertByBoth(s[..n], x, first, second);
      InsertMember(s[..n], x, first);
      var t := Insert(s[..n], x, first);
      forall i | 0 <= i < |t| && first(t[i]) == first(s[n]) ensures second(t[i]) <= second(s[n]) {
        assert t[i] in t;
        var j :| 0 <= j < n && s[..n][j] == t[i];
      }
    }
  }

  /** Sorting what is sorted by one key by another keeps the first order among equals. */
  lemma {:induction false} SortTwice<T>(s: seq<T>, first: T -> real, second: T -> real)
    requires Sorted(s, second)
    ensures SortedByBoth(StableSort(s, first), first, second)
  {
    if s != [] {
      var n := |s| - 1;
      SortTwice(s[..n], first, second);
      SortMember(s[..n], first);
      var t := StableSort(s[..n], first);
      forall i | 0 <= i < |t| ensures second(t[i]) <= second(s[n]) {
        assert t[i] in t;
        var j :| 0 <= j < n && s[..n][j] == t[i];
      }
      InsertByBoth(t, s[n], first, second);
    }
  }

  lemma {:induction false} StableSortStrict<T>(s: seq<T>, key: T -> real)
    requires DistinctKeys(s, key)
    ensures StrictlySorted(StableSort(s, key), key)
  {
    if s != [] {
      var n := |s| - 1;
      StableSortStrict(s[..n], key);
      StableSortSpec(s[..n], key);
      var r := StableSort(s[..n], key);
      SortMember(s[..n], key);
      forall i | 0 <= i < |r| ensures key(r[i]) != key(s[n]) {
        assert r[i] in r;
        assert r[i] in s[..n];
      }
      InsertStrict(r, s[n], key);
    }
  }

  lemma {:induction false} InsertStrict<T>(s: seq<T>, x: T, key: T -> real)
    requires StrictlySorted(s, key)
    requires forall i | 0 <= i < |s| :: key(s[i]) != key(x)
    ensures StrictlySorted(Insert(s, x, key), key)
  {
    if s != [] && key(s[|s| - 1]) > key(x) {
      var n := |s| - 1;
      InsertStrict(s[..n], x, key);
      InsertMember(s[..n], x, key);
      var r := Insert(s[..n], x, key);
      forall i | 0 <= i < |r| ensures key(r[i]) < key(s[n]) {
        assert r[i] in r;
        assert r[i] in s[..n] || r[i] == x;
      }
    }
  }

  /** Two strictly ascending lists of the same elements are the same list. */
  lemma SameLast<T>(a: seq<T>, b: seq<T>, key: T -> real)
    requires StrictlySorted(a, key) && StrictlySorted(b, key) && a != [] && b != []
    requires a[|a| - 1] in b && b[|b| - 1] in a
    ensures a[|a| - 1] == b[|b| - 1]
  {
    var i :| 0 <= i < |b| && b[i] == a[|a| - 1];
    var j :| 0 <= j < |a| && a[j] == b[|b| - 1];
  }

  /** The front of a strictly sorted list has all of it but the last. */
  lemma FrontMember<T>(a: seq<T>, key: T -> real, x: T)
    requires StrictlySorted(a, key) && a != []
    ensures x in a[..|a| - 1] <==> x in a && x != a[|a| - 1]
  {
    var m := |a| - 1;
    assert a == a[..m] + [a[m]];
    if x in a[..m] {
      var i :| 0 <= i < m && a[i] == x;
      assert key(a[i]) < key(a[m]);
    }
  }

  lemma {:induction false} StrictSortUnique<T>(a: seq<T>, b: seq<T>, key: T -> real)
    requires StrictlySorted(a, key) && StrictlySorted(b, key)
    requires forall x :: x in a <==> x in b
    ensures a == b
  {
    assert a == [] || a[0] in a;
    assert b == [] || b[0] in b;
    if a != [] {
      var m, n := |a| - 1, |b| - 1;
      assert a[m] in b && b[n] in a;
      SameLast(a, b, key);
      forall x ensures x in a[..m] <==> x in b[..n] {
        FrontMember(a, key, x);
        FrontMember(b, key, x);
      }
      StrictSortUnique(a[..m], b[..n], key);
      assert a == a[..m] + [a[m]] && b == b[..n] + [b[n]];
    }
  }

  /** Input order does not matter to the sort when the keys are distinct. */
  lemma SortUnique<T>(a: seq<T>, b: seq<T>, key: T -> real)
    requires DistinctKeys(a, key) && DistinctKeys(b, key)
    requires forall x :: x in a <==> x in b
    ensures StableSort(a, key) == StableSort(b, key)
  {
    StableSortStrict(a, key);
    StableSortStrict(b, key);
    SortMember(a, key);
    SortMember(b, key);
    StrictSortUnique(StableSort(a, key), StableSort(b, key), key);
  }

  function Map<T, U>(s: seq<T>, f: T -> U): (r: seq<U>)
    ensures |r| == |s| && forall i | 0 <= i < |s| :: r[i] == f(s[i])
  {
    seq(|s|, i requires 0 <= i < |s| => f(s[i]))
  }

  lemma MapAppend<T, U>(a: seq<T>, b: seq<T>, f: T -> U)
    ensures Map(a + b, f) == Map(a, f) + Map(b, f)
  {
  }

  lemma MapMember<T, U>(s: seq<T>, f: T -> U)
    ensures forall x | x in s :: f(x) in Map(s, f)
    ensures forall y | y in Map(s, f) :: exists x | x in s :: y == f(x)
  {
    forall x | x in s ensures f(x) in Map(s, f) {
      var i :| 0 <= i < |s| && s[i] == x;
      assert Map(s, f)[i] == f(x);
    }
    forall y | y in Map(s, f) ensures exists x | x in s :: y == f(x) {
      var i :| 0 <= i < |s| && Map(s, f)[i] == y;
      assert s[i] in s;
    }
  }

  /** Sorting commutes with a mapping that keeps the keys. */
  lemma {:induction false} SortMap<T, U>(s: seq<T>, f: T -> U, key: T -> real, key': U -> real)
    requires forall x :: key'(f(x)) == key(x)
    ensures StableSort(Map(s, f), key') == Map(StableSort(s, key), f)
  {
    if s != [] {
      var n := |s| - 1;
      SortMap(s[..n], f, key, key');
      assert Map(s, f)[..n] == Map(s[..n], f);
      InsertMap(StableSort(s[..n], key), s[n], f, key, key');
    }
  }

  lemma {:induction false} InsertMap<T, U>(s: seq<T>, x: T, f: T -> U, key: T -> real, key': U -> real)
    requires forall y :: key'(f(y)) == key(y)
    ensures Insert(Map(s, f), f(x), key') == Map(Insert(s, x, key), f)
  {
    if s != [] {
      var n := |s| - 1;
      assert Map(s, f)[..n] == Map(s[..n], f);
      if key(s[n]) > key(x) {
        InsertMap(s[..n], x, f, key, key');
      }
    }
  }

  // --- the first minimum -----------------------------------------------------

  /** `min(s, key=key)`: the first element of least key. */
  function MinBy<T>(s: seq<T>, key: T -> real): (m: T)
    requires s != []
    ensures m in s
    ensures forall x | x in s :: key(m) <= key(x)
  {
    if |s| == 1 then s[0] else
      var best := MinBy(s[..|s| - 1], key);
      assert s == s[..|s| - 1] + [s[|s| - 1]];
      if key(s[|s| - 1]) < key(best) then s[|s| - 1] else best
  }

  // --- searching and partitioning --------------------------------------------

  /** Of equally good elements the first is chosen, as Python's `min` and `max` do. */
  lemma {:induction false} MinByFirst<T>(s: seq<T>, key: T -> real) returns (i: nat)
    requires s != []
    ensures i < |s| && s[i] == MinBy(s, key)
    ensures forall j | 0 <= j < i :: key(s[j]) > key(s[i])
  {
    i := 0;
    if |s| > 1 {
      var n := |s| - 1;
      i := MinByFirst(s[..n], key);
      if key(s[n]) < key(s[i]) {
        forall j | 0 <= j < n ensures key(s[j]) > key(s[n]) {
          assert s[..n][j] in s[..n];
        }
        i := n;
      }
    }
  }

  /** `next((x for x in s if test(x)), None)`. */
  function First<T>(s: seq<T>, test: T -> bool): (r: Option<T>)
    ensures r.Some? ==> r.value in s && test(r.value)
    ensures r.None? ==> forall x | x in s :: !test(x)
  {
    if s == [] then None else if test(s[0]) then Some(s[0]) else First(s[1..], test)
  }

  lemma {:induction false} FirstSnoc<T>(s: seq<T>, x: T, test: T -> bool)
    ensures First(s + [x], test) == if First(s, test).Some? then First(s, test) else if test(x) then Some(x) else None
  {
    if s == [] {
      assert (s + [x])[1..] == [];
    } else {
      assert (s + [x])[1..] == s[1..] + [x];
      FirstSnoc(s[1..], x, test);
    }
  }

  /** What comes first for a test comes first in any filtering that keeps it and asks no less. */
  lemma {:induction false} FilterFirst<T>(s: seq<T>, test: T -> bool, both: T -> bool)
    requires First(s, test).Some? && both(First(s, test).value)
    requires forall x | x in s && both(x) :: test(x)
    ensures Filter(s, both) != [] && Filter(s, both)[0] == First(s, test).value
  {
    var n := |s| - 1;
    assert s == s[..n] + [s[n]];
    FirstSnoc(s[..n], s[n], test);
    if First(s[..n], test).Some? {
      FilterFirst(s[..n], test, both);
    } else {
      FilterNone(s[..n], both);
    }
  }

  /** The first in a sorted list to pass a test: of those that pass it has the least key, and among
      equals it came first before the sort. */
  lemma FirstOfSorted<T>(s: seq<T>, key: T -> real, test: T -> bool, same: T -> bool, both: T -> bool)
    requires First(StableSort(s, key), test).Some?
    requires forall x :: same(x) <==> key(x) == key(First(StableSort(s, key), test).value)
    requires forall x :: both(x) <==> same(x) && test(x)
    ensures var h := First(StableSort(s, key), test).value;
            (forall x | x in s && test(x) :: key(h) <= key(x)) && Filter(s, both) != [] && Filter(s, both)[0] == h
  {
    hide StableSort, Filter;
    var t := StableSort(s, key);
    var h := First(t, test).value;
    StableSortStable(s, key, key(h), same);
    FilterTwice(s, same, test, both);
    FilterTwice(t, same, test, both);
    FilterFirst(t, test, both);
    StableSortSpec(s, key);
    SortMember(s, key);
    FirstLeast(t, key, test);
  }

  lemma {:induction false} FirstLeast<T>(t: seq<T>, key: T -> real, test: T -> bool)
    requires Sorted(t, key) && First(t, test).Some?
    ensures forall x | x in t && test(x) :: key(First(t, test).value) <= key(x)
  {
    if !test(t[0]) {
      FirstLeast(t[1..], key, test);
    }
  }

  /** The last in a sorted list has the greatest key, and among equals it came last before the sort. */
  lemma LastOfSorted<T>(s: seq<T>, key: T -> real, h: T, same: T -> bool)
    requires s != [] && |StableSort(s, key)| == |s| && StableSort(s, key)[|s| - 1] == h
    requires forall x :: same(x) <==> key(x) == key(h)
    ensures (forall x | x in s :: key(x) <= key(h)) && Filter(s, same) != []
      && Filter(s, same)[|Filter(s, same)| - 1] == h
  {
    hide StableSort;
    var t := StableSort(s, key);
    StableSortStable(s, key, key(h), same);
    StableSortSpec(s, key);
    SortMember(s, key);
    assert same(h) && Filter(t, same) == Filter(t[..|s| - 1], same) + [h];
    forall x | x in s ensures key(x) <= key(h) {
      assert x in t;
      var i :| 0 <= i < |t| && t[i] == x;
    }
  }

  lemma {:induction false} SortDistinct<T, K>(s: seq<T>, key: T -> real, id: T -> K)
    requires DistinctKeys(s, id)
    ensures DistinctKeys(StableSort(s, key), id)
  {
    if s != [] {
      var n := |s| - 1;
      SortDistinct(s[..n], key, id);
      SortMember(s[..n], key);
      var r := StableSort(s[..n], key);
      forall i | 0 <= i < |r| ensures id(r[i]) != id(s[n]) {
        assert r[i] in r;
        assert r[i] in s[..n];
      }
      InsertDistinct(r, s[n], key, id);
    }
  }

  lemma {:induction false} InsertDistinct<T, K>(s: seq<T>, x: T, key: T -> real, id: T -> K)
    requires DistinctKeys(s, id) && forall i | 0 <= i < |s| :: id(s[i]) != id(x)
    ensures DistinctKeys(Insert(s, x, key), id)
  {
    if s != [] && key(s[|s| - 1]) > key(x) {
      var n := |s| - 1;
      InsertDistinct(s[..n], x, key, id);
      InsertMember(s[..n], x, key);
      var r := Insert(s[..n], x, key);
      forall i | 0 <= i < |r| ensures id(r[i]) != id(s[n]) {
        assert r[i] in r;
        assert r[i] in s[..n] || r[i] == x;
      }
    }
  }

  lemma AppendDistinct<T, K>(a: seq<T>, b: seq<T>, id: T -> K)
    requires DistinctKeys(a, id) && DistinctKeys(b, id)
    requires forall x, y | x in a && y in b :: id(x) != id(y)
    ensures DistinctKeys(a + b, id)
  {
    forall i, j | 0 <= i < j < |a + b| ensures id((a + b)[i]) != id((a + b)[j]) {
      if i < |a| && j >= |a| {
        assert a[i] in a && b[j - |a|] in b;
      }
    }
  }

  /** A list drawn from distinct elements without repetition has distinct keys. */
  lemma SubDistinct<T, K>(a: seq<T>, s: seq<T>, key: T -> K)
    requires multiset(a) <= multiset(s) && DistinctKeys(s, key)
    ensures DistinctKeys(a, key)
  {
    forall i, j | 0 <= i < j < |a| ensures key(a[i]) != key(a[j]) {
      assert a[i] in multiset(a) && a[j] in multiset(a);
      assert a[i] in s && a[j] in s;
      if a[i] == a[j] {
        assert a == a[..j] + a[j..];
        assert a[i] in a[..j] && a[j] in a[j..];
        DistinctOnce(s, key, a[i]);
      }
    }
  }

  lemma {:induction false} DistinctOnce<T, K>(s: seq<T>, key: T -> K, x: T)
    requires DistinctKeys(s, key)
    ensures multiset(s)[x] <= 1
  {
    if s != [] {
      var n := |s| - 1;
      DistinctOnce(s[..n], key, x);
      assert s == s[..n] + [s[n]];
    }
  }

  /** A filter over a union of two exclusive tests holds what the two filters hold. */
  lemma {:induction false} FilterSplit<T>(s: seq<T>, p: T -> bool, q: T -> bool, r: T -> bool)
    requires forall x | x in s :: p(x) == (q(x) || r(x)) && !(q(x) && r(x))
    ensures multiset(Filter(s, p)) == multiset(Filter(s, q)) + multiset(Filter(s, r))
  {
    if s != [] {
      FilterSplit(s[..|s| - 1], p, q, r);
    }
  }

  lemma FilterMap<T, U>(s: seq<T>, f: T -> U, p: T -> bool, q: U -> bool)
    requires forall x :: p(x) == q(f(x))
    ensures Filter(Map(s, f), q) == Map(Filter(s, p), f)
  {
    if s != [] {
      var n := |s| - 1;
      FilterMap(s[..n], f, p, q);
      assert Map(s, f)[..n] == Map(s[..n], f);
    }
  }

  lemma MinByMap<T, U>(s: seq<T>, f: T -> U, key: T -> real, key': U -> real)
    requires s != [] && forall x :: key'(f(x)) == key(x)
    ensures MinBy(Map(s, f), key') == f(MinBy(s, key))
  {
    if |s| > 1 {
      var n := |s| - 1;
      MinByMap(s[..n], f, key, key');
      assert Map(s, f)[..n] == Map(s[..n], f);
    }
  }

  // --- decimal numbers -------------------------------------------------------

  function Digit(d: nat): char
    requires d < 10
  {
    "0123456789"[d]
  }

  /** `str(n)`. */
  function Decimal(n: nat): (s: string)
    ensures s != ""
  {
    if n < 10 then [Digit(n)] else Decimal(n / 10) + [Digit(n % 10)]
  }

  lemma DigitInjective(a: nat, b: nat)
    requires a < 10 && b < 10 && Digit(a) == Digit(b)
    ensures a == b
  {
  }

  lemma {:induction false} DecimalInjective(a: nat, b: nat)
    requires Decimal(a) == Decimal(b)
    ensures a == b
  {
    var s, t := Decimal(a), Decimal(b);
    assert s[|s| - 1] == Digit(a % 10) && t[|t| - 1] == Digit(b % 10);
    DigitInjective(a % 10, b % 10);
    assert (a >= 10 <==> |s| > 1) && (b >= 10 <==> |t| > 1);
    if a >= 10 && b >= 10 {
      assert s[..|s| - 1] == Decimal(a / 10) && t[..|t| - 1] == Decimal(b / 10);
      DecimalInjective(a / 10, b / 10);
    }
  }
}

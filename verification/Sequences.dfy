/** Sequence operations of the host language: filter, map, first occurrences and a stable sort. */
module Sequences {

  // ---- filter ----

  function Filter<T>(xs: seq<T>, p: T -> bool): seq<T> {
    if xs == [] then [] else
    var rest := Filter(xs[..|xs| - 1], p);
    if p(xs[|xs| - 1]) then rest + [xs[|xs| - 1]] else rest
  }

  lemma FilterSnoc<T>(xs: seq<T>, x: T, p: T -> bool)
    ensures Filter(xs + [x], p) == if p(x) then Filter(xs, p) + [x] else Filter(xs, p)
  {
    assert (xs + [x])[..|xs + [x]| - 1] == xs;
  }

  lemma {:induction false} FilterAppend<T>(xs: seq<T>, ys: seq<T>, p: T -> bool)
    ensures Filter(xs + ys, p) == Filter(xs, p) + Filter(ys, p)
  {
    if ys == [] {
      assert xs + ys == xs;
    } else {
      var zs, y := ys[..|ys| - 1], ys[|ys| - 1];
      FilterAppend(xs, zs, p);
      FilterSnoc(xs + zs, y, p);
      assert xs + ys == (xs + zs) + [y];
    }
  }

  lemma {:induction false} FilterMember<T>(xs: seq<T>, p: T -> bool, x: T)
    ensures x in Filter(xs, p) <==> x in xs && p(x)
  {
    if xs != [] {
      var zs := xs[..|xs| - 1];
      FilterMember(zs, p, x);
      assert xs == zs + [xs[|xs| - 1]];
    }
  }

  lemma {:induction false} FilterCommutes<T>(xs: seq<T>, p: T -> bool, q: T -> bool)
    ensures Filter(Filter(xs, p), q) == Filter(Filter(xs, q), p)
  {
    if xs != [] {
      var zs, x := xs[..|xs| - 1], xs[|xs| - 1];
      FilterCommutes(zs, p, q);
      FilterSnoc(Filter(zs, p), x, q);
      FilterSnoc(Filter(zs, q), x, p);
    }
  }

  /** Filtering twice is filtering by both. */
  lemma {:induction false} FilterTwice<T>(xs: seq<T>, p: T -> bool, q: T -> bool, both: T -> bool)
    requires forall i :: 0 <= i < |xs| ==> (both(xs[i]) <==> p(xs[i]) && q(xs[i]))
    ensures Filter(Filter(xs, p), q) == Filter(xs, both)
  {
    if xs != [] {
      var zs, x := xs[..|xs| - 1], xs[|xs| - 1];
      FilterTwice(zs, p, q, both);
      FilterSnoc(Filter(zs, p), x, q);
    }
  }

  lemma {:induction false} FilterAll<T>(xs: seq<T>, p: T -> bool)
    requires forall i :: 0 <= i < |xs| ==> p(xs[i])
    ensures Filter(xs, p) == xs
  {
    if xs != [] {
      FilterAll(xs[..|xs| - 1], p);
    }
  }

  lemma {:induction false} FilterNone<T>(xs: seq<T>, p: T -> bool)
    requires forall i :: 0 <= i < |xs| ==> !p(xs[i])
    ensures Filter(xs, p) == []
  {
    if xs != [] {
      FilterNone(xs[..|xs| - 1], p);
    }
  }

  lemma {:induction false} FilterCongruent<T>(xs: seq<T>, p: T -> bool, q: T -> bool)
    requires forall i :: 0 <= i < |xs| ==> p(xs[i]) == q(xs[i])
    ensures Filter(xs, p) == Filter(xs, q)
  {
    if xs != [] {
      FilterCongruent(xs[..|xs| - 1], p, q);
    }
  }

  /** Filtering a prefix gives a prefix of filtering the whole. */
  lemma FilterPrefix<T>(xs: seq<T>, k: nat, p: T -> bool)
    requires k <= |xs|
    ensures Filter(xs[..k], p) <= Filter(xs, p)
  {
    FilterAppend(xs[..k], xs[k..], p);
    hide Filter;
    SplitAt(xs, k);
  }

  lemma SplitAt<T>(xs: seq<T>, k: nat)
    requires k <= |xs|
    ensures xs[..k] + xs[k..] == xs
  {}

  // ---- map ----

  function Map<S, T>(f: S -> T, xs: seq<S>): seq<T> {
    seq(|xs|, i requires 0 <= i < |xs| => f(xs[i]))
  }

  lemma MapSnoc<S, T>(f: S -> T, xs: seq<S>, x: S)
    ensures Map(f, xs + [x]) == Map(f, xs) + [f(x)]
  {}

  lemma MapMember<S, T>(f: S -> T, xs: seq<S>, y: T)
    ensures y in Map(f, xs) <==> exists i :: 0 <= i < |xs| && f(xs[i]) == y
  {
    if i :| 0 <= i < |xs| && f(xs[i]) == y {
      assert Map(f, xs)[i] == y;
    }
  }

  function Precompose<S, T>(f: S -> T, p: T -> bool): S -> bool {
    x => p(f(x))
  }

  lemma {:induction false} FilterMap<S, T>(xs: seq<S>, f: S -> T, p: T -> bool)
    ensures Filter(Map(f, xs), p) == Map(f, Filter(xs, Precompose(f, p)))
  {
    if xs != [] {
      var zs, x := xs[..|xs| - 1], xs[|xs| - 1];
      FilterMap(zs, f, p);
      assert Map(f, xs) == Map(f, zs) + [f(x)];
      FilterSnoc(Map(f, zs), f(x), p);
    }
  }

  // ---- first occurrences ----

  ghost predicate NoDuplicates<T>(xs: seq<T>) {
    forall i, j :: 0 <= i < j < |xs| ==> xs[i] != xs[j]
  }

  /** Without duplicates, a list is as long as the set of its elements is large. */
  lemma {:induction false} DistinctSize<T>(xs: seq<T>, elements: set<T>)
    requires NoDuplicates(xs) && forall x :: x in elements <==> x in xs
    ensures |elements| == |xs|
  {
    if xs == [] {
      assert elements == {};
    } else {
      var front, last := xs[..|xs| - 1], xs[|xs| - 1];
      assert xs == front + [last];
      DistinctSize(front, elements - {last});
    }
  }

  /** Keeps the first occurrence of every element. */
  function Distinct<T(==)>(xs: seq<T>): seq<T> {
    if xs == [] then [] else
    var rest := Distinct(xs[..|xs| - 1]);
    if xs[|xs| - 1] in rest then rest else rest + [xs[|xs| - 1]]
  }

  lemma DistinctSnoc<T>(xs: seq<T>, x: T)
    ensures Distinct(xs + [x]) == if x in Distinct(xs) then Distinct(xs) else Distinct(xs) + [x]
  {
    assert (xs + [x])[..|xs + [x]| - 1] == xs;
  }

  lemma {:induction false} DistinctMember<T>(xs: seq<T>, x: T)
    ensures x in Distinct(xs) <==> x in xs
  {
    if xs != [] {
      DistinctMember(xs[..|xs| - 1], x);
      assert xs == xs[..|xs| - 1] + [xs[|xs| - 1]];
    }
  }

  lemma {:induction false} DistinctHasNoDuplicates<T>(xs: seq<T>)
    ensures NoDuplicates(Distinct(xs))
  {
    if xs != [] {
      DistinctHasNoDuplicates(xs[..|xs| - 1]);
    }
  }

  lemma {:induction false} DistinctFilter<T>(xs: seq<T>, p: T -> bool)
    ensures Distinct(Filter(xs, p)) == Filter(Distinct(xs), p)
  {
    if xs != [] {
      var zs, x := xs[..|xs| - 1], xs[|xs| - 1];
      DistinctFilter(zs, p);
      FilterMember(Distinct(zs), p, x);
      FilterSnoc(Distinct(zs), x, p);
      DistinctSnoc(Filter(zs, p), x);
    }
  }

  lemma {:induction false} DistinctPrefix<T>(xs: seq<T>, ys: seq<T>)
    ensures Distinct(xs) <= Distinct(xs + ys)
  {
    if ys == [] {
      assert xs + ys == xs;
    } else {
      var zs, y := ys[..|ys| - 1], ys[|ys| - 1];
      DistinctPrefix(xs, zs);
      DistinctSnoc(xs + zs, y);
      assert xs + ys == (xs + zs) + [y];
    }
  }

  lemma {:induction false} FilterKeepsDistinct<T>(xs: seq<T>, p: T -> bool)
    requires NoDuplicates(xs)
    ensures NoDuplicates(Filter(xs, p))
  {
    if xs != [] {
      var zs, x := xs[..|xs| - 1], xs[|xs| - 1];
      FilterKeepsDistinct(zs, p);
      FilterMember(zs, p, x);
    }
  }

  /** A list without duplicates loses at most one element when one value is filtered out. */
  lemma {:induction false} FilterOutOne<T>(xs: seq<T>, w: T, p: T -> bool)
    requires NoDuplicates(xs)
    requires forall i :: 0 <= i < |xs| ==> (p(xs[i]) <==> xs[i] != w)
    ensures |xs| - 1 <= |Filter(xs, p)| <= |xs|
    ensures w in xs ==> |Filter(xs, p)| == |xs| - 1
    ensures w !in xs ==> Filter(xs, p) == xs
  {
    if xs != [] {
      var zs, x := xs[..|xs| - 1], xs[|xs| - 1];
      FilterOutOne(zs, w, p);
      assert xs == zs + [x];
    }
  }

  /** `slice(0, count)` with the count clamped at both ends. */
  function Take<T>(xs: seq<T>, count: int): seq<T> {
    if count <= 0 then [] else if |xs| <= count then xs else xs[..count]
  }

  // ---- Array.prototype.sort: stable, by an integer key ----

  ghost predicate Sorted<T>(xs: seq<T>, key: T -> int) {
    forall i, j :: 0 <= i < j < |xs| ==> key(xs[i]) <= key(xs[j])
  }

  function AtMost<T>(key: T -> int, v: int): T -> bool { x => key(x) <= v }
  function Above<T>(key: T -> int, v: int): T -> bool { x => key(x) > v }
  function KeyIs<T>(key: T -> int, v: int): T -> bool { x => key(x) == v }

  /** Inserts after every element whose key is not larger. */
  function Insert<T>(x: T, xs: seq<T>, key: T -> int): seq<T> {
    Filter(xs, AtMost(key, key(x))) + [x] + Filter(xs, Above(key, key(x)))
  }

  function StableSort<T>(xs: seq<T>, key: T -> int): seq<T> {
    if xs == [] then [] else Insert(xs[|xs| - 1], StableSort(xs[..|xs| - 1], key), key)
  }

  lemma {:induction false} FilterKeepsOrder<T>(xs: seq<T>, key: T -> int, p: T -> bool)
    requires Sorted(xs, key)
    ensures Sorted(Filter(xs, p), key)
    ensures forall y :: y in Filter(xs, p) ==> y in xs && p(y)
  {
    if xs != [] {
      var zs, x := xs[..|xs| - 1], xs[|xs| - 1];
      FilterKeepsOrder(zs, key, p);
      var kept := Filter(zs, p);
      assert forall i :: 0 <= i < |kept| ==> kept[i] in zs;
    }
  }

  lemma {:induction false} SplitAtKey<T>(xs: seq<T>, key: T -> int, v: int)
    requires Sorted(xs, key)
    ensures Filter(xs, AtMost(key, v)) + Filter(xs, Above(key, v)) == xs
  {
    if xs != [] {
      var zs, x := xs[..|xs| - 1], xs[|xs| - 1];
      if key(x) <= v {
        FilterAll(xs, AtMost(key, v));
        FilterNone(xs, Above(key, v));
      } else {
        SplitAtKey(zs, key, v);
      }
    }
  }

  lemma InsertKeepsOrder<T>(x: T, xs: seq<T>, key: T -> int)
    requires Sorted(xs, key)
    ensures Sorted(Insert(x, xs, key), key)
  {
    FilterKeepsOrder(xs, key, AtMost(key, key(x)));
    FilterKeepsOrder(xs, key, Above(key, key(x)));
    var low, high := Filter(xs, AtMost(key, key(x))), Filter(xs, Above(key, key(x)));
    assert forall i :: 0 <= i < |low| ==> low[i] in low;
    assert forall i :: 0 <= i < |high| ==> high[i] in high;
  }

  lemma {:induction false} SortOrders<T>(xs: seq<T>, key: T -> int)
    ensures Sorted(StableSort(xs, key), key)
  {
    if xs != [] {
      SortOrders(xs[..|xs| - 1], key);
      InsertKeepsOrder(xs[|xs| - 1], StableSort(xs[..|xs| - 1], key), key);
    }
  }

  lemma FilterInsert<T>(x: T, xs: seq<T>, key: T -> int, p: T -> bool)
    requires Sorted(xs, key)
    ensures Filter(Insert(x, xs, key), p)
         == if p(x) then Insert(x, Filter(xs, p), key) else Filter(xs, p)
  {
    var low, high := AtMost(key, key(x)), Above(key, key(x));
    FilterAppend(Filter(xs, low) + [x], Filter(xs, high), p);
    FilterSnoc(Filter(xs, low), x, p);
    FilterCommutes(xs, low, p);
    FilterCommutes(xs, high, p);
    FilterKeepsOrder(xs, key, p);
    SplitAtKey(Filter(xs, p), key, key(x));
  }

  /** Sorting commutes with filtering, which is what stability buys. */
  lemma {:induction false} FilterSort<T>(xs: seq<T>, key: T -> int, p: T -> bool)
    ensures Filter(StableSort(xs, key), p) == StableSort(Filter(xs, p), key)
  {
    if xs != [] {
      var zs, x := xs[..|xs| - 1], xs[|xs| - 1];
      FilterSort(zs, key, p);
      SortOrders(zs, key);
      FilterInsert(x, StableSort(zs, key), key, p);
      assert p(x) ==> Filter(xs, p)[..|Filter(xs, p)| - 1] == Filter(zs, p);
    }
  }

  lemma InsertLast<T>(x: T, xs: seq<T>, key: T -> int)
    requires forall i :: 0 <= i < |xs| ==> key(xs[i]) <= key(x)
    ensures Insert(x, xs, key) == xs + [x]
  {
    FilterAll(xs, AtMost(key, key(x)));
    FilterNone(xs, Above(key, key(x)));
    hide Filter;
  }

  lemma {:induction false} SortOfEqualKeys<T>(xs: seq<T>, key: T -> int, v: int)
    requires forall i :: 0 <= i < |xs| ==> key(xs[i]) == v
    ensures StableSort(xs, key) == xs
  {
    hide Filter, Insert;
    if xs != [] {
      var zs, x := xs[..|xs| - 1], xs[|xs| - 1];
      SortOfEqualKeys(zs, key, v);
      InsertLast(x, zs, key);
      assert xs == zs + [x];
    }
  }

  /** Elements with the same key keep their relative order, and none is lost or added. */
  lemma SortIsStable<T>(xs: seq<T>, key: T -> int, v: int)
    ensures Filter(StableSort(xs, key), KeyIs(key, v)) == Filter(xs, KeyIs(key, v))
  {
    var same := Filter(xs, KeyIs(key, v));
    FilterSort(xs, key, KeyIs(key, v));
    forall i | 0 <= i < |same| ensures key(same[i]) == v {
      FilterMember(xs, KeyIs(key, v), same[i]);
    }
    SortOfEqualKeys(same, key, v);
  }

  lemma SortMember<T>(xs: seq<T>, key: T -> int, x: T)
    ensures x in StableSort(xs, key) <==> x in xs
  {
    var same := KeyIs(key, key(x));
    SortIsStable(xs, key, key(x));
    FilterMember(xs, same, x);
    FilterMember(StableSort(xs, key), same, x);
  }

  /** A sorted list is determined by its sublists of equal keys, so `StableSort` is the
      only stable sort: any host sort with that contract returns the same list. */
  lemma {:induction false} StableSortIsUnique<T>(xs: seq<T>, ys: seq<T>, key: T -> int)
    requires Sorted(xs, key) && Sorted(ys, key)
    requires forall v :: Filter(xs, KeyIs(key, v)) == Filter(ys, KeyIs(key, v))
    ensures xs == ys
  {
    if xs == [] {
      if ys != [] {
        LastKeyAgrees(ys, xs, key);
      }
      assert ys == [];
    } else {
      LastAgrees(xs, ys, key);
      var front, x := xs[..|xs| - 1], xs[|xs| - 1];
      var back := ys[..|ys| - 1];
      SortedFront(xs, key);
      SortedFront(ys, key);
      hide Filter, Sorted;
      assert xs == front + [x] && ys == back + [x];
      forall v ensures Filter(front, KeyIs(key, v)) == Filter(back, KeyIs(key, v)) {
        SameWithoutLast(front, back, x, key, v);
      }
      StableSortIsUnique(front, back, key);
    }
  }

  lemma SortedFront<T>(xs: seq<T>, key: T -> int)
    requires xs != [] && Sorted(xs, key)
    ensures Sorted(xs[..|xs| - 1], key)
  {}

  lemma LastAgrees<T>(xs: seq<T>, ys: seq<T>, key: T -> int)
    requires xs != [] && Sorted(xs, key) && Sorted(ys, key)
    requires forall v :: Filter(xs, KeyIs(key, v)) == Filter(ys, KeyIs(key, v))
    ensures ys != [] && ys[|ys| - 1] == xs[|xs| - 1]
  {
    LastKeyAgrees(xs, ys, key);
    LastKeyAgrees(ys, xs, key);
    FilterLast(xs, KeyIs(key, key(xs[|xs| - 1])));
    FilterLast(ys, KeyIs(key, key(xs[|xs| - 1])));
    hide Filter, Sorted;
  }

  lemma FilterLast<T>(xs: seq<T>, p: T -> bool)
    requires xs != [] && p(xs[|xs| - 1])
    ensures var kept := Filter(xs, p);
      kept != [] && kept[|kept| - 1] == xs[|xs| - 1]
  {}

  lemma SameWithoutLast<T>(xs: seq<T>, ys: seq<T>, x: T, key: T -> int, v: int)
    requires Filter(xs + [x], KeyIs(key, v)) == Filter(ys + [x], KeyIs(key, v))
    ensures Filter(xs, KeyIs(key, v)) == Filter(ys, KeyIs(key, v))
  {
    FilterSnoc(xs, x, KeyIs(key, v));
    FilterSnoc(ys, x, KeyIs(key, v));
    hide Filter;
    var a, b := Filter(xs, KeyIs(key, v)), Filter(ys, KeyIs(key, v));
    if key(x) == v {
      assert (a + [x])[..|a|] == a && (b + [x])[..|b|] == b;
    }
  }

  lemma LastKeyAgrees<T>(xs: seq<T>, ys: seq<T>, key: T -> int)
    requires xs != [] && Sorted(ys, key)
    requires forall v :: Filter(xs, KeyIs(key, v)) == Filter(ys, KeyIs(key, v))
    ensures ys != [] && key(xs[|xs| - 1]) <= key(ys[|ys| - 1])
  {
    var x := xs[|xs| - 1];
    FilterMember(xs, KeyIs(key, key(x)), x);
    FilterMember(ys, KeyIs(key, key(x)), x);
  }
}

/** Sequence and string operations the stores and pages use: JavaScript's `filter`,
    `map`, `slice(0, n)`, `startsWith` and `includes`, and the stable sort the backing
    store's `order` clauses are modelled by. */
module Seqs {

  /** `s.filter(p)`: the elements of `s` that satisfy `p`, in their original order. */
  function Filter<T>(s: seq<T>, p: T -> bool): (r: seq<T>)
    ensures |r| <= |s|
    ensures forall x :: x in r ==> x in s && p(x)
    ensures forall x :: x in s && p(x) ==> x in r
  {
    if s == [] then []
    else (if p(s[0]) then [s[0]] else []) + Filter(s[1..], p)
  }

  /** Filtering distributes over concatenation, so it keeps the relative order. */
  lemma {:induction false} FilterConcat<T>(a: seq<T>, b: seq<T>, p: T -> bool)
    ensures Filter(a + b, p) == Filter(a, p) + Filter(b, p)
  {
    if a == [] {
      assert a + b == b;
    } else {
      var head := if p(a[0]) then [a[0]] else [];
      assert (a + b)[0] == a[0] && (a + b)[1..] == a[1..] + b;
      assert Filter(a + b, p) == head + Filter(a[1..] + b, p);
      FilterConcat(a[1..], b, p);
      assert Filter(a, p) == head + Filter(a[1..], p);
    }
  }

  /** A sequence all of whose elements satisfy `p` is its own filter. */
  lemma {:induction false} FilterAll<T>(s: seq<T>, p: T -> bool)
    requires forall x :: x in s ==> p(x)
    ensures Filter(s, p) == s
  {
    if s != [] {
      FilterAll(s[1..], p);
    }
  }

  /** A sequence none of whose elements satisfy `p` filters to nothing. */
  lemma {:induction false} FilterNone<T>(s: seq<T>, p: T -> bool)
    requires forall x :: x in s ==> !p(x)
    ensures Filter(s, p) == []
  {
    if s != [] {
      FilterNone(s[1..], p);
    }
  }

  /** Filtering twice by the same predicate is filtering once. */
  lemma FilterIdempotent<T>(s: seq<T>, p: T -> bool)
    ensures Filter(Filter(s, p), p) == Filter(s, p)
  {
    FilterAll(Filter(s, p), p);
  }

  /** Predicates that agree on the elements filter alike. */
  lemma {:induction false} FilterCongruent<T>(s: seq<T>, p: T -> bool, q: T -> bool)
    requires forall x :: x in s ==> p(x) == q(x)
    ensures Filter(s, p) == Filter(s, q)
  {
    if s != [] {
      FilterCongruent(s[1..], p, q);
      FilterCons(s, p);
      FilterCons(s, q);
    }
  }

  /** Filtering by a weaker predicate first changes nothing. */
  lemma {:induction false} FilterOfFilter<T>(s: seq<T>, q: T -> bool, p: T -> bool)
    requires forall x :: p(x) ==> q(x)
    ensures Filter(Filter(s, q), p) == Filter(s, p)
  {
    if s != [] {
      FilterOfFilter(s[1..], q, p);
      FilterConcat(if q(s[0]) then [s[0]] else [], Filter(s[1..], q), p);
    }
  }

  /** How often a value occurs after filtering: as often as before when it satisfies
      `p`, never otherwise. */
  lemma {:induction false} FilterCount<T>(s: seq<T>, p: T -> bool, x: T)
    ensures multiset(Filter(s, p))[x] == if p(x) then multiset(s)[x] else 0
  {
    if s != [] {
      FilterCount(s[1..], p, x);
      assert s == [s[0]] + s[1..];
    }
  }

  /** Exactly one element satisfying `p` filters to that element alone. */
  lemma {:induction false} FilterSingle<T>(s: seq<T>, p: T -> bool, k: nat)
    requires k < |s| && p(s[k])
    requires forall j :: 0 <= j < |s| && j != k ==> !p(s[j])
    ensures Filter(s, p) == [s[k]]
  {
    if k == 0 {
      FilterNone(s[1..], p);
    } else {
      FilterSingle(s[1..], p, k - 1);
    }
  }

  /** `s.map(f)`. */
  function Map<A, B>(s: seq<A>, f: A -> B): (r: seq<B>)
    ensures |r| == |s|
    ensures forall i :: 0 <= i < |s| ==> r[i] == f(s[i])
  {
    seq(|s|, i requires 0 <= i < |s| => f(s[i]))
  }

  lemma MapCons<A, B>(s: seq<A>, f: A -> B)
    requires s != []
    ensures Map(s, f) == [f(s[0])] + Map(s[1..], f)
  {
  }

  /** Filtering an image is the image of filtering by the composed predicate. */
  lemma {:induction false} FilterMap<A, B>(s: seq<A>, f: A -> B, p: B -> bool)
    ensures Filter(Map(s, f), p) == Map(Filter(s, (x: A) => p(f(x))), f)
  {
    if s != [] {
      var q := (x: A) => p(f(x));
      MapCons(s, f);
      FilterCons(Map(s, f), p);
      assert Map(s, f)[1..] == Map(s[1..], f);
      FilterMap(s[1..], f, p);
      FilterCons(s, q);
      if q(s[0]) {
        MapCons(Filter(s, q), f);
        assert Filter(s, q)[1..] == Filter(s[1..], q);
      } else {
        assert Filter(s, q) == Filter(s[1..], q);
      }
    }
  }

  /** `s.slice(0, n)`: the first `n` elements, or all of them when there are fewer. */
  function Take<T>(s: seq<T>, n: nat): (r: seq<T>)
    ensures |r| <= n && |r| <= |s|
    ensures |s| <= n ==> r == s
    ensures forall i :: 0 <= i < |r| ==> r[i] == s[i]
  {
    if |s| <= n then s else s[..n]
  }

  /** `s.filter(y => y !== x)`: every occurrence of `x` removed. */
  function RemoveAll<T(==)>(s: seq<T>, x: T): (r: seq<T>)
    ensures x !in r
    ensures forall y :: y in r ==> y in s
    ensures forall y :: y in s && y != x ==> y in r
  {
    Filter(s, y => y != x)
  }

  /** Removing `x` leaves every other value exactly as often as it was. */
  lemma RemoveAllKeepsOthers<T>(s: seq<T>, x: T)
    ensures forall y :: y != x ==> multiset(RemoveAll(s, x))[y] == multiset(s)[y]
  {
    forall y | y != x
      ensures multiset(RemoveAll(s, x))[y] == multiset(s)[y]
    {
      FilterCount(s, z => z != x, y);
    }
  }

  /** The membership toggle used for expanded seasons and checked genres: remove every
      occurrence when present, append when absent. */
  function Toggle<T(==)>(s: seq<T>, x: T): (r: seq<T>)
    ensures x in r <==> x !in s
    ensures forall y :: y in r && y != x ==> y in s
    ensures forall y :: y in s && y != x ==> y in r
  {
    if x in s then RemoveAll(s, x) else s + [x]
  }

  /** Toggling twice restores membership of every value. */
  lemma ToggleTwice<T>(s: seq<T>, x: T)
    ensures forall y :: y in Toggle(Toggle(s, x), x) <==> y in s
  {
  }

  /** Sortedness by an integer key, ascending and non-strict. */
  predicate SortedBy<T>(s: seq<T>, key: T -> int) {
    forall i, j :: 0 <= i < j < |s| ==> key(s[i]) <= key(s[j])
  }

  /** Inserts `x` in front of the first element whose key is not below its own. */
  function InsertBy<T>(x: T, s: seq<T>, key: T -> int): (r: seq<T>)
    ensures |r| == |s| + 1
    ensures multiset(r) == multiset(s) + multiset{x}
    ensures forall y :: y in r ==> y == x || y in s
  {
    if s == [] || key(x) <= key(s[0]) then [x] + s
    else
      assert s == [s[0]] + s[1..];
      [s[0]] + InsertBy(x, s[1..], key)
  }

  /** An element whose key is not above any key of a sorted sequence can go in front. */
  lemma PrependSorted<T>(h: T, s: seq<T>, key: T -> int)
    requires SortedBy(s, key)
    requires forall y :: y in s ==> key(h) <= key(y)
    ensures SortedBy([h] + s, key)
  {
    var r := [h] + s;
    forall i, j | 0 <= i < j < |r| ensures key(r[i]) <= key(r[j]) {
      assert r[j] == s[j - 1] && s[j - 1] in s;
      if i > 0 {
        assert r[i] == s[i - 1];
      }
    }
  }

  /** Inserting into a sorted sequence keeps it sorted. */
  lemma {:induction false} InsertBySorted<T>(x: T, s: seq<T>, key: T -> int)
    requires SortedBy(s, key)
    ensures SortedBy(InsertBy(x, s, key), key)
  {
    if s != [] && key(x) > key(s[0]) {
      var tail := s[1..];
      var rest := InsertBy(x, tail, key);
      InsertBySorted(x, tail, key);
      assert InsertBy(x, s, key) == [s[0]] + rest;
      forall y | y in rest ensures key(s[0]) <= key(y) {
        if y != x {
          var k :| 0 <= k < |tail| && tail[k] == y;
          assert key(s[0]) <= key(s[k + 1]);
        }
      }
      PrependSorted(s[0], rest, key);
    }
  }

  /** A stable insertion sort by `key`, standing for an `ORDER BY` over the key's column
      (and for `Array.prototype.sort`, which is stable). */
  function SortBy<T>(s: seq<T>, key: T -> int): (r: seq<T>)
    ensures |r| == |s|
    ensures multiset(r) == multiset(s)
    ensures SortedBy(r, key)
  {
    if s == [] then []
    else
      assert s == [s[0]] + s[1..];
      InsertBySorted(s[0], SortBy(s[1..], key), key);
      InsertBy(s[0], SortBy(s[1..], key), key)
  }

  /** The head of a sort holds a smallest key. */
  lemma SortByHead<T>(s: seq<T>, key: T -> int, x: T)
    requires x in s
    ensures |SortBy(s, key)| > 0 && SortBy(s, key)[0] in s && key(SortBy(s, key)[0]) <= key(x)
  {
    var sorted := SortBy(s, key);
    assert x in multiset(sorted);
    var k :| 0 <= k < |sorted| && sorted[k] == x;
    assert key(sorted[0]) <= key(sorted[k]);
    assert sorted[0] in multiset(s);
  }

  /** Sorting keeps exactly the elements of the input. */
  lemma SortByMembers<T>(s: seq<T>, key: T -> int)
    ensures forall x :: x in SortBy(s, key) <==> x in s
  {
    var r := SortBy(s, key);
    forall x ensures x in r <==> x in s {
      assert x in r <==> x in multiset(r);
      assert x in s <==> x in multiset(s);
    }
  }

  /** Inserting past a smaller head keeps that head in front. */
  lemma {:induction false} InsertByPastHead<T>(x: T, s0: T, s: seq<T>, key: T -> int)
    requires key(x) > key(s0)
    ensures InsertBy(x, [s0] + s, key) == [s0] + InsertBy(x, s, key)
  {
    var t := [s0] + s;
    assert t[0] == s0 && t[1..] == s;
  }

  /** Filtering commutes with inserting in front of a sorted sequence. */
  lemma {:induction false} FilterInsertByFront<T>(x: T, s: seq<T>, key: T -> int, p: T -> bool)
    requires SortedBy(s, key)
    requires s == [] || key(x) <= key(s[0])
    ensures p(x) ==> Filter(InsertBy(x, s, key), p) == InsertBy(x, Filter(s, p), key)
    ensures !p(x) ==> Filter(InsertBy(x, s, key), p) == Filter(s, p)
  {
    var fs := Filter(s, p);
    assert InsertBy(x, s, key) == [x] + s;
    FilterConcat([x], s, p);
    assert Filter([x], p) == if p(x) then [x] else [];
    if p(x) && fs != [] {
      var y := fs[0];
      assert y in s;
      var k :| 0 <= k < |s| && s[k] == y;
      assert key(s[0]) <= key(y);
      assert InsertBy(x, fs, key) == [x] + fs;
    }
  }

  /** Filtering a sequence is filtering its head, then its tail. */
  lemma FilterCons<T>(s: seq<T>, p: T -> bool)
    requires s != []
    ensures Filter(s, p) == Filter([s[0]], p) + Filter(s[1..], p)
    ensures Filter([s[0]], p) == if p(s[0]) then [s[0]] else []
  {
    assert s == [s[0]] + s[1..];
    FilterConcat([s[0]], s[1..], p);
  }

  /** Inserting `x` past a head that the filter keeps. */
  lemma {:induction false} FilterInsertByPastKept<T>(x: T, s: seq<T>, key: T -> int, p: T -> bool)
    requires s != [] && key(x) > key(s[0]) && p(s[0])
    ensures Filter(InsertBy(x, s, key), p) == [s[0]] + Filter(InsertBy(x, s[1..], key), p)
    ensures Filter(s, p) == [s[0]] + Filter(s[1..], p)
  {
    var whole := InsertBy(x, s, key);
    assert whole == [s[0]] + InsertBy(x, s[1..], key);
    FilterCons(whole, p);
    assert whole[0] == s[0] && whole[1..] == InsertBy(x, s[1..], key);
    FilterCons(s, p);
  }

  /** Inserting `x` past a head that the filter drops. */
  lemma {:induction false} FilterInsertByPastDropped<T>(x: T, s: seq<T>, key: T -> int, p: T -> bool)
    requires s != [] && key(x) > key(s[0]) && !p(s[0])
    ensures Filter(InsertBy(x, s, key), p) == Filter(InsertBy(x, s[1..], key), p)
    ensures Filter(s, p) == Filter(s[1..], p)
  {
    var whole := InsertBy(x, s, key);
    assert whole == [s[0]] + InsertBy(x, s[1..], key);
    FilterCons(whole, p);
    assert whole[0] == s[0] && whole[1..] == InsertBy(x, s[1..], key);
    FilterCons(s, p);
  }

  /** Filtering commutes with inserting into a sorted sequence. */
  lemma {:induction false} FilterInsertBy<T>(x: T, s: seq<T>, key: T -> int, p: T -> bool)
    requires SortedBy(s, key)
    ensures p(x) ==> Filter(InsertBy(x, s, key), p) == InsertBy(x, Filter(s, p), key)
    ensures !p(x) ==> Filter(InsertBy(x, s, key), p) == Filter(s, p)
  {
    if s == [] || key(x) <= key(s[0]) {
      FilterInsertByFront(x, s, key, p);
    } else {
      assert SortedBy(s[1..], key);
      FilterInsertBy(x, s[1..], key, p);
      if p(s[0]) {
        FilterInsertByPastKept(x, s, key, p);
        if p(x) {
          InsertByPastHead(x, s[0], Filter(s[1..], p), key);
        }
      } else {
        FilterInsertByPastDropped(x, s, key, p);
      }
    }
  }

  /** Sorting a sequence is inserting its head into its sorted tail. */
  lemma SortByCons<T>(x: T, s: seq<T>, key: T -> int)
    ensures SortBy([x] + s, key) == InsertBy(x, SortBy(s, key), key)
  {
    var t := [x] + s;
    assert t[0] == x && t[1..] == s;
  }

  /** Filtering a sorted sequence is sorting the filtered sequence. */
  lemma {:induction false} FilterSortBy<T>(s: seq<T>, key: T -> int, p: T -> bool)
    ensures Filter(SortBy(s, key), p) == SortBy(Filter(s, p), key)
  {
    if s != [] {
      var rest := SortBy(s[1..], key);
      assert SortBy(s, key) == InsertBy(s[0], rest, key);
      FilterSortBy(s[1..], key, p);
      FilterInsertBy(s[0], rest, key, p);
      FilterCons(s, p);
      var f1 := Filter(s[1..], p);
      if p(s[0]) {
        assert Filter(s, p) == [s[0]] + f1;
        SortByCons(s[0], f1, key);
        assert Filter(SortBy(s, key), p) == InsertBy(s[0], SortBy(f1, key), key);
      } else {
        assert Filter(s, p) == f1;
        assert Filter(SortBy(s, key), p) == SortBy(f1, key);
      }
    }
  }

  /** `s.startsWith(prefix)`. */
  predicate StartsWith(s: string, prefix: string) {
    |prefix| <= |s| && s[..|prefix|] == prefix
  }

  /** `s.includes(t)`: `t` occurs somewhere in `s`. */
  predicate Contains(s: string, t: string)
    decreases |s|
  {
    StartsWith(s, t) || (|s| > 0 && Contains(s[1..], t))
  }

  /** An occurrence of `t` at position `i` of `s` is an occurrence in `s`. */
  lemma {:induction false} ContainsAt(s: string, t: string, i: nat)
    requires i <= |s| && StartsWith(s[i..], t)
    ensures Contains(s, t)
  {
    if i > 0 {
      assert s[1..][i - 1..] == s[i..];
      ContainsAt(s[1..], t, i - 1);
    }
  }
}

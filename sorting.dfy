/** Python's `sorted(xs, key = k)` for an integer key: a stable sort, written as an
    insertion sort. Its result is ordered by the key, is a permutation of the input,
    and keeps the input order among elements of equal key (which together fix it). */
module Sorting {

  predicate SortedBy<T>(s: seq<T>, key: T -> int) {
    forall i, j :: 0 <= i < j < |s| ==> key(s[i]) <= key(s[j])
  }

  /** The elements of `s` whose key is `v`, in their order in `s`. */
  function WithKey<T>(s: seq<T>, key: T -> int, v: int): (r: seq<T>)
    ensures |r| <= |s|
  {
    if s == [] then []
    else if key(s[0]) == v then [s[0]] + WithKey(s[1..], key, v)
    else WithKey(s[1..], key, v)
  }

  /** Places `x` before the first element whose key is not smaller than its own. */
  function Insert<T>(x: T, s: seq<T>, key: T -> int): (r: seq<T>)
  {
    if s == [] || key(x) <= key(s[0]) then [x] + s else [s[0]] + Insert(x, s[1..], key)
  }

  function SortBy<T>(s: seq<T>, key: T -> int): (r: seq<T>)
  {
    if s == [] then [] else Insert(s[0], SortBy(s[1..], key), key)
  }

  /** Inserting adds `x` and keeps every other element. */
  lemma {:induction false} InsertElements<T>(x: T, s: seq<T>, key: T -> int)
    ensures |Insert(x, s, key)| == |s| + 1
    ensures forall y :: y in Insert(x, s, key) ==> y == x || y in s
  {
    if s != [] && key(x) > key(s[0]) {
      InsertElements(x, s[1..], key);
      assert Insert(x, s, key) == [s[0]] + Insert(x, s[1..], key);
      assert forall y :: y in s[1..] ==> y in s;
    }
  }

  /** Inserting into an ordered list keeps it ordered. */
  lemma {:induction false} InsertSorted<T>(x: T, s: seq<T>, key: T -> int)
    requires SortedBy(s, key)
    ensures SortedBy(Insert(x, s, key), key)
  {
    if s != [] && key(x) > key(s[0]) {
      var t := s[1..];
      assert SortedBy(t, key);
      InsertSorted(x, t, key);
      InsertElements(x, t, key);
      var r := Insert(x, t, key);
      forall i | 0 <= i < |r| ensures key(s[0]) <= key(r[i]) {
        assert r[i] in r;
        if r[i] != x {
          var j :| 0 <= j < |t| && t[j] == r[i];
          assert s[j + 1] == r[i];
        }
      }
      var q := [s[0]] + r;
      assert Insert(x, s, key) == q;
      forall a, b | 0 <= a < b < |q| ensures key(q[a]) <= key(q[b]) {
        assert q[b] == r[b - 1];
        if a > 0 {
          assert q[a] == r[a - 1];
        }
      }
    }
  }

  /** Inserting `x` puts it first among the elements of its own key. */
  lemma {:induction false} InsertWithKey<T>(x: T, s: seq<T>, key: T -> int, v: int)
    ensures WithKey(Insert(x, s, key), key, v) ==
            (if key(x) == v then [x] + WithKey(s, key, v) else WithKey(s, key, v))
  {
    if s != [] && key(x) > key(s[0]) {
      var t := s[1..];
      InsertWithKey(x, t, key, v);
      var q := [s[0]] + Insert(x, t, key);
      assert Insert(x, s, key) == q;
      assert q[1..] == Insert(x, t, key);
    } else {
      assert ([x] + s)[1..] == s;
    }
  }

  lemma InsertFacts<T>(x: T, s: seq<T>, key: T -> int)
    requires SortedBy(s, key)
    ensures |Insert(x, s, key)| == |s| + 1
    ensures SortedBy(Insert(x, s, key), key)
    ensures forall v :: WithKey(Insert(x, s, key), key, v) ==
                        (if key(x) == v then [x] + WithKey(s, key, v) else WithKey(s, key, v))
  {
    InsertElements(x, s, key);
    InsertSorted(x, s, key);
    forall v ensures WithKey(Insert(x, s, key), key, v) ==
                     (if key(x) == v then [x] + WithKey(s, key, v) else WithKey(s, key, v)) {
      InsertWithKey(x, s, key, v);
    }
  }

  lemma {:induction false} SortByFacts<T>(s: seq<T>, key: T -> int)
    ensures |SortBy(s, key)| == |s|
    ensures SortedBy(SortBy(s, key), key)
    ensures forall v :: WithKey(SortBy(s, key), key, v) == WithKey(s, key, v)
  {
    if s != [] {
      SortByFacts(s[1..], key);
      InsertFacts(s[0], SortBy(s[1..], key), key);
    }
  }

  /** The result is a permutation of the input. */
  lemma {:induction false} SortByPermutes<T>(s: seq<T>, key: T -> int)
    ensures multiset(SortBy(s, key)) == multiset(s)
  {
    if s != [] {
      SortByPermutes(s[1..], key);
      SortByFacts(s[1..], key);
      InsertPermutes(s[0], SortBy(s[1..], key), key);
      assert s == [s[0]] + s[1..];
    }
  }

  /** Sorting takes its elements from the input. */
  lemma SortByMembers<T>(s: seq<T>, key: T -> int)
    ensures forall x :: x in SortBy(s, key) ==> x in s
  {
    SortByPermutes(s, key);
    forall x | x in SortBy(s, key) ensures x in s {
      assert x in multiset(SortBy(s, key));
    }
  }

  lemma {:induction false} InsertPermutes<T>(x: T, s: seq<T>, key: T -> int)
    ensures multiset(Insert(x, s, key)) == multiset{x} + multiset(s)
  {
    if s != [] && key(x) > key(s[0]) {
      InsertPermutes(x, s[1..], key);
      assert s == [s[0]] + s[1..];
    }
  }

  /** Concatenating `f` over a list does not depend, as a multiset, on the list's order. */
  function FlatMap<T, U>(s: seq<T>, f: T -> seq<U>): seq<U> {
    if s == [] then [] else f(s[0]) + FlatMap(s[1..], f)
  }

  lemma {:induction false} FlatMapInsert<T, U>(x: T, s: seq<T>, key: T -> int, f: T -> seq<U>)
    ensures multiset(FlatMap(Insert(x, s, key), f)) == multiset(f(x)) + multiset(FlatMap(s, f))
  {
    if s != [] && key(x) > key(s[0]) {
      FlatMapInsert(x, s[1..], key, f);
      assert ([s[0]] + Insert(x, s[1..], key))[1..] == Insert(x, s[1..], key);
    } else {
      assert ([x] + s)[1..] == s;
    }
  }

  lemma {:induction false} FlatMapSortBy<T, U>(s: seq<T>, key: T -> int, f: T -> seq<U>)
    ensures multiset(FlatMap(SortBy(s, key), f)) == multiset(FlatMap(s, f))
  {
    if s != [] {
      FlatMapSortBy(s[1..], key, f);
      FlatMapInsert(s[0], SortBy(s[1..], key), key, f);
    }
  }

  lemma {:induction false} FlatMapAppend<T, U>(s: seq<T>, t: seq<T>, f: T -> seq<U>)
    ensures FlatMap(s + t, f) == FlatMap(s, f) + FlatMap(t, f)
  {
    if s != [] {
      assert (s + t)[0] == s[0];
      assert (s + t)[1..] == s[1..] + t;
      FlatMapAppend(s[1..], t, f);
      assert FlatMap(s + t, f) == f(s[0]) + FlatMap(s[1..] + t, f);
      assert f(s[0]) + (FlatMap(s[1..], f) + FlatMap(t, f)) == (f(s[0]) + FlatMap(s[1..], f)) + FlatMap(t, f);
    } else {
      assert s + t == t;
    }
  }

  function Concat<T>(gs: seq<seq<T>>): seq<T> {
    if gs == [] then [] else gs[0] + Concat(gs[1..])
  }

  /** The maximal runs of consecutive elements of equal key, in order. */
  function Runs<T>(s: seq<T>, key: T -> int): (gs: seq<seq<T>>)
    ensures Concat(gs) == s
    ensures forall i :: 0 <= i < |gs| ==> gs[i] != []
    ensures s != [] ==> gs != [] && gs[0][0] == s[0]
  {
    if s == [] then []
    else
      var rest := Runs(s[1..], key);
      assert rest != [] ==> Concat(rest) == rest[0] + Concat(rest[1..]);
      if rest != [] && key(rest[0][0]) == key(s[0]) then
        var gs := [[s[0]] + rest[0]] + rest[1..];
        assert gs[1..] == rest[1..];
        gs
      else
        var gs := [[s[0]]] + rest;
        assert gs[1..] == rest;
        gs
  }

  lemma {:induction false} RunsUniform<T>(s: seq<T>, key: T -> int)
    ensures forall i, x :: 0 <= i < |Runs(s, key)| && x in Runs(s, key)[i] ==> key(x) == key(Runs(s, key)[i][0])
  {
    if s != [] {
      RunsUniform(s[1..], key);
    }
  }

  lemma {:induction false} RunsIncreasing<T>(s: seq<T>, key: T -> int)
    requires SortedBy(s, key)
    ensures forall i, j :: 0 <= i < j < |Runs(s, key)| ==> key(Runs(s, key)[i][0]) < key(Runs(s, key)[j][0])
  {
    if s != [] {
      assert SortedBy(s[1..], key);
      RunsIncreasing(s[1..], key);
      var rest := Runs(s[1..], key);
      if rest != [] {
        assert rest[0][0] == s[1];
        assert key(s[0]) <= key(rest[0][0]);
      }
    }
  }

  /** jq's `group_by(key)`: the input sorted by key, cut into runs of equal key.
      The groups are non-empty, uniform in key, in strictly increasing key order,
      and together they are a permutation of the input. */
  function GroupBy<T>(s: seq<T>, key: T -> int): (gs: seq<seq<T>>)
    ensures forall i :: 0 <= i < |gs| ==> gs[i] != []
    ensures forall i, x :: 0 <= i < |gs| && x in gs[i] ==> key(x) == key(gs[i][0])
    ensures forall i, j :: 0 <= i < j < |gs| ==> key(gs[i][0]) < key(gs[j][0])
    ensures multiset(Concat(gs)) == multiset(s)
  {
    SortByFacts(s, key);
    SortByPermutes(s, key);
    RunsUniform(SortBy(s, key), key);
    RunsIncreasing(SortBy(s, key), key);
    Runs(SortBy(s, key), key)
  }

  function Map<T, U>(s: seq<T>, f: T -> U): (r: seq<U>)
    ensures |r| == |s|
    ensures forall i :: 0 <= i < |s| ==> r[i] == f(s[i])
  {
    if s == [] then [] else [f(s[0])] + Map(s[1..], f)
  }

  lemma MapAppend<T, U>(a: seq<T>, b: seq<T>, f: T -> U)
    ensures Map(a + b, f) == Map(a, f) + Map(b, f)
  {
  }

  /** Mapping respects permutation: equal multisets map to equal multisets. */
  lemma {:induction false} MapMultiset<T, U>(a: seq<T>, b: seq<T>, f: T -> U)
    requires multiset(a) == multiset(b)
    ensures multiset(Map(a, f)) == multiset(Map(b, f))
    decreases |a|
  {
    if a == [] {
      assert |b| == |multiset(b)| == 0;
    } else {
      var x := a[0];
      var k := MapMultisetHead(a, b, f);
      MapMultiset(a[1..], Without(b, k), f);
      MapRemoveAt(b, k, f);
    }
  }

  /** The first element of `a` sits at some `k` in `b`: removing it leaves multisets
      that still agree, and mapping `a` puts `f(a[0])` in front. */
  lemma MapMultisetHead<T, U>(a: seq<T>, b: seq<T>, f: T -> U) returns (k: nat)
    requires a != [] && multiset(a) == multiset(b)
    ensures k < |b| && b[k] == a[0]
    ensures multiset(a[1..]) == multiset(Without(b, k))
    ensures multiset(Map(a, f)) == multiset{f(a[0])} + multiset(Map(a[1..], f))
  {
    var x := a[0];
    assert a == [x] + a[1..];
    assert x in multiset(b);
    k :| 0 <= k < |b| && b[k] == x;
    RemoveAt(b, k);
    assert Map(a, f) == [f(x)] + Map(a[1..], f);
  }

  /** `b` without its `k`-th element. */
  function Without<T>(b: seq<T>, k: nat): seq<T>
    requires k < |b|
  {
    b[..k] + b[k + 1..]
  }

  lemma RemoveAt<T>(b: seq<T>, k: nat)
    requires k < |b|
    ensures multiset(Without(b, k)) == multiset(b) - multiset{b[k]}
  {
    assert b == b[..k] + [b[k]] + b[k + 1..];
  }

  lemma {:induction false} MapRemoveAt<T, U>(b: seq<T>, k: nat, f: T -> U)
    requires k < |b|
    ensures multiset(Map(b, f)) == multiset(Map(Without(b, k), f)) + multiset{f(b[k])}
  {
    assert Map(b, f) == [f(b[0])] + Map(b[1..], f);
    if k == 0 {
      assert Without(b, 0) == b[1..];
    } else {
      var w := Without(b, k);
      assert w[0] == b[0];
      assert w[1..] == Without(b[1..], k - 1);
      MapRemoveAt(b[1..], k - 1, f);
      assert Map(w, f) == [f(b[0])] + Map(w[1..], f);
    }
  }

  /** Replacing one element changes the flattening by that element's part only. */
  lemma FlatMapUpdate<T, U>(s: seq<T>, i: nat, x: T, f: T -> seq<U>)
    requires i < |s|
    ensures multiset(FlatMap(s[i := x], f)) + multiset(f(s[i])) == multiset(FlatMap(s, f)) + multiset(f(x))
  {
    assert s == s[..i] + ([s[i]] + s[i + 1..]);
    assert s[i := x] == s[..i] + ([x] + s[i + 1..]);
    FlatMapAppend(s[..i], [s[i]] + s[i + 1..], f);
    FlatMapAppend([s[i]], s[i + 1..], f);
    FlatMapAppend(s[..i], [x] + s[i + 1..], f);
    FlatMapAppend([x], s[i + 1..], f);
    assert FlatMap([x], f) == f(x) by { assert [x][1..] == []; }
    assert FlatMap([s[i]], f) == f(s[i]) by { assert [s[i]][1..] == []; }
  }
}

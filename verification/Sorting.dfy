/** Stable sorting of a sequence by a comparison, and when its result is the only one. */
module Sorting {

  /** A comparison that orders the elements up to ties. */
  ghost predicate Orders<T(!new)>(less: (T, T) -> bool)
  {
    && (forall a :: !less(a, a))
    && (forall a, b, c :: less(a, b) && less(b, c) ==> less(a, c))
    && (forall a, b, c :: less(a, c) ==> less(a, b) || less(b, c))
  }

  ghost predicate SortedBy<T>(less: (T, T) -> bool, s: seq<T>)
  {
    forall i, j :: 0 <= i < j < |s| ==> !less(s[j], s[i])
  }

  function InsertBy<T>(less: (T, T) -> bool, x: T, s: seq<T>): seq<T>
  {
    if s == [] || !less(s[0], x) then [x] + s else [s[0]] + InsertBy(less, x, s[1..])
  }

  /** Equal elements keep their order. */
  function SortBy<T>(less: (T, T) -> bool, s: seq<T>): seq<T>
  {
    if s == [] then [] else InsertBy(less, s[0], SortBy(less, s[1..]))
  }

  lemma {:induction false} InsertKeeps<T(!new)>(less: (T, T) -> bool, x: T, s: seq<T>)
    requires Orders(less) && SortedBy(less, s)
    ensures SortedBy(less, InsertBy(less, x, s)) && multiset(InsertBy(less, x, s)) == multiset(s) + multiset{x}
  {
    if s != [] && less(s[0], x) {
      InsertKeeps(less, x, s[1..]);
      var rest := InsertBy(less, x, s[1..]);
      assert s == [s[0]] + s[1..];
      forall j | 0 <= j < |rest| ensures !less(rest[j], s[0]) {
        assert rest[j] in multiset(rest);
        assert rest[j] == x || rest[j] in s[1..];
      }
    } else if s != [] {
      forall j | 0 <= j < |s| ensures !less(s[j], x) {
        assert j > 0 ==> !less(s[j], s[0]);
      }
    }
  }

  lemma {:induction false} SortByWorks<T(!new)>(less: (T, T) -> bool, s: seq<T>)
    requires Orders(less)
    ensures SortedBy(less, SortBy(less, s)) && multiset(SortBy(less, s)) == multiset(s)
  {
    if s != [] {
      SortByWorks(less, s[1..]);
      InsertKeeps(less, s[0], SortBy(less, s[1..]));
      assert s == [s[0]] + s[1..];
    }
  }

  /** The comparison ties no two different elements of `s`. */
  ghost predicate Separates<T>(less: (T, T) -> bool, s: multiset<T>)
  {
    forall a, b :: a in s && b in s && a != b ==> less(a, b) || less(b, a)
  }

  lemma SameFirst<T(!new)>(less: (T, T) -> bool, a: seq<T>, b: seq<T>)
    requires SortedBy(less, a) && SortedBy(less, b) && a != []
    requires forall x :: !less(x, x)
    requires multiset(a) == multiset(b) && Separates(less, multiset(a))
    ensures b != [] && a[0] == b[0]
  {
    assert a[0] in multiset(b);
    assert b[0] in multiset(a);
    var i :| 0 <= i < |b| && b[i] == a[0];
    var j :| 0 <= j < |a| && a[j] == b[0];
    assert !less(b[i], b[0]) && !less(a[j], a[0]);
  }

  lemma WithoutFirst<T>(s: seq<T>)
    requires s != []
    ensures multiset(s[1..]) == multiset(s) - multiset{s[0]} && multiset(s[1..]) <= multiset(s) && s == [s[0]] + s[1..]
  {
    assert s == [s[0]] + s[1..];
  }

  lemma {:induction false} SortedIsUnique<T(!new)>(less: (T, T) -> bool, a: seq<T>, b: seq<T>)
    requires (forall x :: !less(x, x)) && SortedBy(less, a) && SortedBy(less, b)
    requires multiset(a) == multiset(b) && Separates(less, multiset(a))
    ensures a == b
  {
    if a == [] {
      assert |b| == |multiset(b)| == |multiset(a)| == 0;
    } else {
      SameFirst(less, a, b);
      WithoutFirst(a);
      WithoutFirst(b);
      SortedIsUnique(less, a[1..], b[1..]);
    }
  }

  /** Sorting does not depend on the order given. */
  lemma SortIgnoresOrder<T(!new)>(less: (T, T) -> bool, a: seq<T>, b: seq<T>)
    requires Orders(less) && multiset(a) == multiset(b) && Separates(less, multiset(a))
    ensures SortBy(less, a) == SortBy(less, b)
  {
    SortByWorks(less, a);
    SortByWorks(less, b);
    SortedIsUnique(less, SortBy(less, a), SortBy(less, b));
  }

  /** A sorted sequence stays as it is. */
  lemma {:induction false} SortKeepsSorted<T>(less: (T, T) -> bool, s: seq<T>)
    requires SortedBy(less, s)
    ensures SortBy(less, s) == s
  {
    if s != [] {
      SortKeepsSorted(less, s[1..]);
      assert s == [s[0]] + s[1..];
    }
  }

  function FilterBy<T>(p: T -> bool, s: seq<T>): seq<T>
  {
    if s == [] then [] else (if p(s[0]) then [s[0]] else []) + FilterBy(p, s[1..])
  }

  lemma {:induction false} FilterCounts<T>(p: T -> bool, s: seq<T>, x: T)
    ensures multiset(FilterBy(p, s))[x] == if p(x) then multiset(s)[x] else 0
  {
    if s != [] {
      FilterCounts(p, s[1..], x);
      assert s == [s[0]] + s[1..];
      assert multiset(s) == multiset{s[0]} + multiset(s[1..]);
    }
  }

  lemma FilterOne<T>(p: T -> bool, x: T)
    ensures FilterBy(p, [x]) == if p(x) then [x] else []
  {
    assert [x][1..] == [] && FilterBy(p, []) == [];
  }

  lemma FilterIgnoresOrder<T(!new)>(p: T -> bool, a: seq<T>, b: seq<T>)
    requires multiset(a) == multiset(b)
    ensures multiset(FilterBy(p, a)) == multiset(FilterBy(p, b))
  {
    forall x ensures multiset(FilterBy(p, a))[x] == multiset(FilterBy(p, b))[x] {
      FilterCounts(p, a, x);
      FilterCounts(p, b, x);
    }
  }

  lemma {:induction false} FilterKeepsSorted<T>(less: (T, T) -> bool, p: T -> bool, s: seq<T>)
    requires SortedBy(less, s)
    ensures SortedBy(less, FilterBy(p, s))
  {
    if s != [] {
      FilterKeepsSorted(less, p, s[1..]);
      var rest := FilterBy(p, s[1..]);
      forall j | 0 <= j < |rest| ensures !less(rest[j], s[0]) {
        FilterCounts(p, s[1..], rest[j]);
        assert rest[j] in multiset(rest);
        assert rest[j] in s[1..];
      }
    }
  }

  lemma {:induction false} FilterKeepsNone<T>(p: T -> bool, s: seq<T>)
    ensures FilterBy(p, s) == [] <==> forall i :: 0 <= i < |s| ==> !p(s[i])
  {
    if s != [] {
      FilterKeepsNone(p, s[1..]);
      assert forall i :: 1 <= i < |s| ==> s[i] == s[1..][i - 1];
    }
  }

  /** Only the element at `i` passes. */
  ghost predicate OnlyAt<T>(p: T -> bool, s: seq<T>, i: nat)
  {
    i < |s| && p(s[i]) && forall j :: 0 <= j < |s| && j != i ==> !p(s[j])
  }

  lemma {:induction false} FilterKeepsOne<T>(p: T -> bool, s: seq<T>) returns (i: nat)
    ensures |FilterBy(p, s)| == 1 <==> OnlyAt(p, s, i)
    ensures forall j :: OnlyAt(p, s, j) ==> j == i
    ensures OnlyAt(p, s, i) ==> FilterBy(p, s) == [s[i]]
  {
    i := 0;
    if s != [] {
      assert forall j :: 1 <= j < |s| ==> s[j] == s[1..][j - 1];
      if p(s[0]) {
        FilterKeepsNone(p, s[1..]);
        assert forall j :: 1 <= j < |s| && !p(s[j]) ==> !p(s[1..][j - 1]);
      } else {
        var k := FilterKeepsOne(p, s[1..]);
        i := k + 1;
        forall j: nat | OnlyAt(p, s, j) ensures j == i {
          assert j > 0;
          forall l | 0 <= l < |s[1..]| && l != j - 1 ensures !p(s[1..][l]) { assert s[1..][l] == s[l + 1]; }
          assert OnlyAt(p, s[1..], j - 1);
        }
        if OnlyAt(p, s[1..], k) {
          forall l | 0 <= l < |s| && l != i ensures !p(s[l]) { if l > 0 { assert s[l] == s[1..][l - 1]; } }
        }
        if OnlyAt(p, s, i) {
          forall l | 0 <= l < |s[1..]| && l != k ensures !p(s[1..][l]) { assert s[1..][l] == s[l + 1]; }
        }
      }
    }
  }

  lemma {:induction false} FilterKeepsAll<T>(p: T -> bool, s: seq<T>)
    requires forall i :: 0 <= i < |s| ==> p(s[i])
    ensures FilterBy(p, s) == s
  {
    if s != [] { FilterKeepsAll(p, s[1..]); }
  }

  lemma {:induction false} FilterAppends<T>(p: T -> bool, s: seq<T>, x: T)
    ensures FilterBy(p, s + [x]) == FilterBy(p, s) + if p(x) then [x] else []
  {
    if s == [] {
      assert s + [x] == [x];
      FilterOne(p, x);
    } else {
      var first, rest, last := if p(s[0]) then [s[0]] else [], FilterBy(p, s[1..]), if p(x) then [x] else [];
      assert (s + [x])[1..] == s[1..] + [x];
      FilterAppends(p, s[1..], x);
      assert first + (rest + last) == (first + rest) + last;
    }
  }

  lemma {:induction false} FilterAgrees<T>(p: T -> bool, q: T -> bool, s: seq<T>)
    requires forall i :: 0 <= i < |s| ==> (p(s[i]) <==> q(s[i]))
    ensures FilterBy(p, s) == FilterBy(q, s)
  {
    if s != [] { FilterAgrees(p, q, s[1..]); }
  }

  function Both<T>(p: T -> bool, q: T -> bool): T -> bool
  {
    (x: T) => p(x) && q(x)
  }

  lemma {:induction false} FilterTwice<T>(p: T -> bool, q: T -> bool, s: seq<T>)
    ensures FilterBy(p, FilterBy(q, s)) == FilterBy(Both(p, q), s)
  {
    if s != [] {
      FilterTwice(p, q, s[1..]);
      var rest := FilterBy(q, s[1..]);
      assert Both(p, q)(s[0]) <==> p(s[0]) && q(s[0]);
      if q(s[0]) {
        assert FilterBy(q, s) == [s[0]] + rest;
        assert ([s[0]] + rest)[1..] == rest;
      } else {
        assert FilterBy(q, s) == rest;
        assert FilterBy(Both(p, q), s) == FilterBy(Both(p, q), s[1..]);
      }
    }
  }
}

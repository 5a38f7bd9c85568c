/** The order Go gives strings, and what `sort.Strings` promises about it.
    Strings stand for byte sequences, so the order is lexicographic by element. */
module Ordering {

  predicate Less(a: string, b: string)
  {
    b != [] && (a == [] || a[0] < b[0] || (a[0] == b[0] && Less(a[1..], b[1..])))
  }

  lemma {:induction false} LessIrreflexive(a: string)
    ensures !Less(a, a)
  {
    if a != [] { LessIrreflexive(a[1..]); }
  }

  lemma {:induction false} LessTransitive(a: string, b: string, c: string)
    requires Less(a, b) && Less(b, c)
    ensures Less(a, c)
  {
    if a != [] && a[0] == b[0] == c[0] { LessTransitive(a[1..], b[1..], c[1..]); }
  }

  lemma {:induction false} LessTotal(a: string, b: string)
    ensures a == b || Less(a, b) || Less(b, a)
  {
    if a != [] && b != [] && a[0] == b[0] {
      LessTotal(a[1..], b[1..]);
      assert a == [a[0]] + a[1..] && b == [b[0]] + b[1..];
    }
  }

  ghost predicate StrictlySorted(s: seq<string>)
  {
    forall i, j :: 0 <= i < j < |s| ==> Less(s[i], s[j])
  }

  /** Places x in front of the first element that is not smaller. */
  function Insert(s: seq<string>, x: string): (r: seq<string>)
    ensures multiset(r) == multiset(s) + multiset{x}
  {
    if s == [] then [x]
    else
      assert s == [s[0]] + s[1..];
      if Less(s[0], x) then [s[0]] + Insert(s[1..], x) else [x] + s
  }

  lemma {:induction false} InsertKeepsSorted(s: seq<string>, x: string)
    requires StrictlySorted(s) && x !in s
    ensures StrictlySorted(Insert(s, x))
  {
    var r := Insert(s, x);
    if s != [] {
      if Less(s[0], x) {
        InsertKeepsSorted(s[1..], x);
        var tail := Insert(s[1..], x);
        forall k | 0 <= k < |tail| ensures Less(s[0], tail[k]) {
          assert tail[k] in multiset(tail);
          assert tail[k] == x || tail[k] in multiset(s[1..]);
        }
      } else {
        LessTotal(s[0], x);
        forall k | 0 <= k < |s| ensures Less(x, s[k]) {
          if k > 0 { LessTransitive(x, s[0], s[k]); }
        }
      }
    }
  }

  /** Go ranges over a map in any order and then sorts the keys. */
  method SortedKeys(keys: set<string>) returns (ordered: seq<string>)
    ensures StrictlySorted(ordered)
    ensures forall x :: x in ordered <==> x in keys
  {
    ordered := [];
    var rest := keys;
    while rest != {}
      invariant StrictlySorted(ordered)
      invariant rest <= keys
      invariant forall x :: x in multiset(ordered) <==> x in keys - rest
      decreases |rest|
    {
      var x :| x in rest;
      assert x !in multiset(ordered);
      InsertKeepsSorted(ordered, x);
      ordered := Insert(ordered, x);
      rest := rest - {x};
    }
    assert forall x :: x in ordered <==> x in multiset(ordered);
  }
}

/** What occurs in a sequence, in a given order. */
module Subsequences {

  ghost predicate FoundAt<T>(s: seq<T>, wanted: seq<T>, at: seq<nat>)
  {
    && |at| == |wanted|
    && (forall i :: 0 <= i < |at| ==> at[i] < |s| && s[at[i]] == wanted[i])
    && (forall i, j :: 0 <= i < j < |at| ==> at[i] < at[j])
  }

  /** These are among the elements of `s`, in this order. */
  ghost predicate Occur<T>(wanted: seq<T>, s: seq<T>)
  {
    exists at :: FoundAt(s, wanted, at)
  }

  lemma AllOccur<T>(s: seq<T>)
    ensures Occur(s, s)
  {
    assert FoundAt(s, s, seq(|s|, i requires 0 <= i < |s| => i));
  }

  lemma NoneOccur<T>(s: seq<T>)
    ensures Occur([], s)
  {
    assert FoundAt(s, [], []);
  }

  lemma JoinedOccur<T>(v: seq<T>, s: seq<T>, w: seq<T>, t: seq<T>)
    requires Occur(v, s) && Occur(w, t)
    ensures Occur(v + w, s + t)
  {
    var first: seq<nat> :| FoundAt(s, v, first);
    var second: seq<nat> :| FoundAt(t, w, second);
    var both := first + seq(|second|, i requires 0 <= i < |second| => |s| + second[i]);
    assert FoundAt(s + t, v + w, both);
  }

  lemma SoonerOccur<T>(w: seq<T>, s: seq<T>, t: seq<T>)
    requires Occur(w, s)
    ensures Occur(w, s + t)
  {
    NoneOccur(t);
    JoinedOccur(w, s, [], t);
    assert w + [] == w;
  }

  lemma LaterOccur<T>(w: seq<T>, s: seq<T>, t: seq<T>)
    requires Occur(w, t)
    ensures Occur(w, s + t)
  {
    NoneOccur(s);
    JoinedOccur([], s, w, t);
    assert [] + w == w;
  }
}

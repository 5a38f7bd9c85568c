/** Resumable copy of a model repository to a peer: compare manifests, clear what is in the
    way, stream the missing entries, compare again, at most three times. The peer's staging
    directory is a tree of paths in which links are entries of their own. */
module Transfer {
  import opened Ordering
  import opened Sorting
  import opened Utf8

  datatype Option<T> = None | Some(value: T)

  /** Components from the staging root; the root itself is []. */
  type Path = seq<string>

  datatype Node = Dir | File(size: nat, sha256: string) | Link(target: string) | Other

  type Tree = map<Path, Node>

  /** A directory tree: whatever lies above an entry is a real directory. A staging root
      that does not exist yet is the empty tree. */
  ghost predicate IsTree(t: Tree)
  {
    forall p, k :: p in t && 0 <= k < |p| ==> p[..k] in t && t[p[..k]] == Dir
  }

  datatype Entry = Entry(path: Path, node: Node)

  predicate IsLeaf(n: Node)
  {
    n.File? || n.Link?
  }

  /** What a walk of the tree lists: each file and link once. */
  ghost predicate Lists(entries: seq<Entry>, t: Tree)
  {
    && (forall e :: e in entries <==> e.path in t && IsLeaf(t[e.path]) && e.node == t[e.path])
    && (forall i, j :: 0 <= i < |entries| && 0 <= j < |entries| && entries[i].path == entries[j].path ==> i == j)
  }

  ghost predicate PrefixFree(entries: seq<Entry>)
  {
    forall i, j :: 0 <= i < |entries| && 0 <= j < |entries| && entries[i].path <= entries[j].path ==> i == j
  }

  lemma WalkIsPrefixFree(entries: seq<Entry>, t: Tree)
    requires IsTree(t) && Lists(entries, t)
    ensures PrefixFree(entries)
  {
    forall i, j | 0 <= i < |entries| && 0 <= j < |entries| && entries[i].path <= entries[j].path ensures i == j {
      var p, q := entries[i].path, entries[j].path;
      assert entries[i] in entries && entries[j] in entries;
      assert q[..|p|] == p;
    }
  }

  // ---------------------------------------------------------------- manifests

  function Size(n: Node): nat
  {
    if n.File? then n.size else 0
  }

  function Bytes(entries: seq<Entry>): nat
  {
    if entries == [] then 0 else Bytes(entries[..|entries| - 1]) + Size(entries[|entries| - 1].node)
  }

  predicate SafeText(s: string)
  {
    s == "" || (s[0] != '\0' && s[0] != '\r' && s[0] != '\n' && SafeText(s[1..]))
  }

  predicate SafePath(p: Path)
  {
    p != [] && SafeText(p[0]) && (|p| == 1 || SafePath(p[1..]))
  }

  /** The local walk accepts an entry that is a regular file, or a link whose text is safe
      and whose target (`inside`) stays in the repository. */
  predicate Acceptable(p: Path, n: Node, inside: Path -> bool)
  {
    SafePath(p) && (n.File? || (n.Link? && SafeText(n.target) && inside(p)))
  }

  predicate BreaksLine(c: char)
  {
    c == '\0' || c == '\r' || c == '\n'
  }

  lemma {:induction false} SafeTextExactly(s: string)
    ensures SafeText(s) <==> forall i :: 0 <= i < |s| ==> !BreaksLine(s[i])
  {
    if s != "" {
      SafeTextExactly(s[1..]);
      assert s == [s[0]] + s[1..];
    }
  }

  lemma {:induction false} SafePathExactly(p: Path)
    ensures SafePath(p) <==> p != [] && forall k :: 0 <= k < |p| ==> SafeText(p[k])
  {
    if |p| > 1 {
      SafePathExactly(p[1..]);
      assert p == [p[0]] + p[1..];
    }
  }

  /** A walk accepts files, and links that stay inside, whose names and targets can stand in
      one line of text. */
  lemma AcceptableExactly(p: Path, n: Node, inside: Path -> bool)
    ensures Acceptable(p, n, inside) <==>
            && p != [] && (forall k, i :: 0 <= k < |p| && 0 <= i < |p[k]| ==> !BreaksLine(p[k][i]))
            && !n.Dir? && !n.Other? && (n.Link? ==> inside(p) && forall i :: 0 <= i < |n.target| ==> !BreaksLine(n.target[i]))
  {
    SafePathExactly(p);
    forall k | 0 <= k < |p| ensures SafeText(p[k]) <==> forall i :: 0 <= i < |p[k]| ==> !BreaksLine(p[k][i]) { SafeTextExactly(p[k]); }
    if n.Link? { SafeTextExactly(n.target); }
  }

  /** Bytes are the sizes of the files; links count nothing. */
  lemma {:induction false} BytesAdd(before: seq<Entry>, e: Entry, after: seq<Entry>)
    ensures Bytes(before + [e] + after) == Bytes(before) + (if e.node.File? then e.node.size else 0) + Bytes(after)
  {
    var all := before + [e] + after;
    if after == [] {
      assert all[..|all| - 1] == before && all[|all| - 1] == e;
    } else {
      assert all[..|all| - 1] == before + [e] + after[..|after| - 1];
      BytesAdd(before, e, after[..|after| - 1]);
    }
  }

  /** The entries found along a walk. */
  function Found(walk: seq<Path>, t: Tree): seq<Entry>
    requires forall k :: 0 <= k < |walk| ==> walk[k] in t
  {
    if walk == [] then []
    else
      var p := walk[|walk| - 1];
      Found(walk[..|walk| - 1], t) + if t[p] == Dir then [] else [Entry(p, t[p])]
  }

  lemma {:induction false} FoundLists(walk: seq<Path>, t: Tree)
    requires forall k :: 0 <= k < |walk| ==> walk[k] in t
    requires forall i, j :: 0 <= i < j < |walk| ==> walk[i] != walk[j]
    ensures forall e :: e in Found(walk, t) <==> e.path in walk && t[e.path] != Dir && e.node == t[e.path]
    ensures forall i, j :: 0 <= i < |Found(walk, t)| && 0 <= j < |Found(walk, t)| && Found(walk, t)[i].path == Found(walk, t)[j].path ==> i == j
  {
    if walk != [] {
      var init, p := walk[..|walk| - 1], walk[|walk| - 1];
      assert walk == init + [p];
      FoundLists(init, t);
      var f := Found(init, t);
      assert forall i :: 0 <= i < |f| ==> f[i] in f;
    }
  }

  /** `walk` is the order in which the directory walk visits the tree. */
  ghost predicate Walks(walk: seq<Path>, t: Tree)
  {
    && (forall p :: p in walk <==> p in t)
    && (forall i, j :: 0 <= i < j < |walk| ==> walk[i] != walk[j])
  }

  method BuildManifest(t: Tree, walk: seq<Path>, inside: Path -> bool) returns (manifest: Option<(seq<Entry>, nat)>)
    requires forall k :: 0 <= k < |walk| ==> walk[k] in t
    ensures manifest.Some? <==>
              && Found(walk, t) != []
              && (forall k :: 0 <= k < |walk| && t[walk[k]] != Dir ==> Acceptable(walk[k], t[walk[k]], inside))
    ensures manifest.Some? ==> manifest.value == (Found(walk, t), Bytes(Found(walk, t)))
  {
    var entries: seq<Entry>, bytes: nat := [], 0;
    for i := 0 to |walk|
      invariant forall k :: 0 <= k < i && t[walk[k]] != Dir ==> Acceptable(walk[k], t[walk[k]], inside)
      invariant entries == Found(walk[..i], t) && bytes == Bytes(entries)
    {
      var p := walk[i];
      assert walk[..i + 1][..i] == walk[..i];
      if t[p] != Dir {
        if !Acceptable(p, t[p], inside) { return None; }
        assert (entries + [Entry(p, t[p])])[..|entries|] == entries;
        entries, bytes := entries + [Entry(p, t[p])], bytes + Size(t[p]);
      }
    }
    assert walk[..|walk|] == walk;
    manifest := if entries == [] then None else Some((entries, bytes));
  }

  /** An accepted walk yields a manifest that lists the tree, and no entry lies below
      another one. */
  lemma ManifestListsTree(t: Tree, walk: seq<Path>, inside: Path -> bool)
    requires IsTree(t) && Walks(walk, t)
    requires forall p :: p in t && t[p] != Dir ==> Acceptable(p, t[p], inside)
    ensures forall k :: 0 <= k < |walk| ==> walk[k] in t
    ensures Lists(Found(walk, t), t) && PrefixFree(Found(walk, t))
  {
    assert forall k :: 0 <= k < |walk| ==> walk[k] in walk;
    FoundLists(walk, t);
    WalkIsPrefixFree(Found(walk, t), t);
  }

  /** The node listed for a path; the last entry wins. */
  function Lookup(entries: seq<Entry>, p: Path): Option<Node>
  {
    if entries == [] then None
    else
      var last := entries[|entries| - 1];
      if last.path == p then Some(last.node) else Lookup(entries[..|entries| - 1], p)
  }

  function Missing(expected: seq<Entry>, present: seq<Entry>): seq<Entry>
  {
    if expected == [] then []
    else
      var e := expected[|expected| - 1];
      Missing(expected[..|expected| - 1], present) + if Lookup(present, e.path) == Some(e.node) then [] else [e]
  }

  method MissingEntries(expected: seq<Entry>, present: seq<Entry>) returns (missing: seq<Entry>, bytes: nat)
    ensures missing == Missing(expected, present) && bytes == Bytes(missing)
  {
    var have: map<Path, Node> := map[];
    for i := 0 to |present|
      invariant forall p :: p in have <==> Lookup(present[..i], p).Some?
      invariant forall p :: p in have ==> Lookup(present[..i], p) == Some(have[p])
    {
      assert present[..i + 1][..i] == present[..i];
      have := have[present[i].path := present[i].node];
    }
    assert present[..|present|] == present;
    missing, bytes := [], 0;
    for i := 0 to |expected|
      invariant missing == Missing(expected[..i], present) && bytes == Bytes(missing)
    {
      assert expected[..i + 1][..i] == expected[..i];
      var e := expected[i];
      if e.path in have && have[e.path] == e.node { continue; }
      assert (missing + [e])[..|missing|] == missing;
      missing, bytes := missing + [e], bytes + Size(e.node);
    }
    assert expected[..|expected|] == expected;
  }

  lemma {:induction false} LookupFinds(entries: seq<Entry>, p: Path)
    ensures Lookup(entries, p).Some? ==> exists k :: LastAt(entries, p, k) && entries[k].node == Lookup(entries, p).value
    ensures Lookup(entries, p).None? ==> forall e :: e in entries ==> e.path != p
  {
    if entries != [] {
      var n := |entries| - 1;
      LookupFinds(entries[..n], p);
      assert entries == entries[..n] + [entries[n]];
      if entries[n].path == p {
        assert LastAt(entries, p, n);
      } else if Lookup(entries, p).Some? {
        var k :| LastAt(entries[..n], p, k) && entries[..n][k].node == Lookup(entries[..n], p).value;
        assert LastAt(entries, p, k);
      }
    }
  }

  ghost predicate LastAt(entries: seq<Entry>, p: Path, k: int)
  {
    0 <= k < |entries| && entries[k].path == p && forall j :: k < j < |entries| ==> entries[j].path != p
  }

  // ---------------------------------------------------------------- what the peer reports

  /** A path or a link's target as it comes back from the peer, which sends them as JSON. */
  function AsRead(p: Path): (r: Path)
    ensures |r| == |p|
  {
    if p == [] then [] else [Coerced(p[0])] + AsRead(p[1..])
  }

  function NodeAsRead(n: Node): Node
  {
    if n.Link? then Link(Coerced(n.target)) else n
  }

  /** What the peer's order of paths compares: their bytes, with Python's surrogates. */
  function SortKey(p: Path): string
  {
    if p == [] then "" else if |p| == 1 then Escaped(p[0]) else Escaped(p[0]) + "/" + SortKey(p[1..])
  }

  function ByPath(): (Entry, Entry) -> bool
  {
    (a: Entry, b: Entry) => Less(SortKey(a.path), SortKey(b.path))
  }

  lemma ByPathOrders()
    ensures Orders(ByPath())
  {
    forall a: Entry ensures !ByPath()(a, a) { LessIrreflexive(SortKey(a.path)); }
    forall a: Entry, b: Entry, c: Entry | ByPath()(a, b) && ByPath()(b, c) ensures ByPath()(a, c) {
      LessTransitive(SortKey(a.path), SortKey(b.path), SortKey(c.path));
    }
    forall a: Entry, b: Entry, c: Entry | ByPath()(a, c) ensures ByPath()(a, b) || ByPath()(b, c) {
      LessTotal(SortKey(a.path), SortKey(b.path));
      if ByPath()(b, a) { LessTransitive(SortKey(b.path), SortKey(a.path), SortKey(c.path)); }
    }
  }

  function AllAsRead(entries: seq<Entry>): (r: seq<Entry>)
    ensures |r| == |entries|
  {
    seq(|entries|, i requires 0 <= i < |entries| => Entry(AsRead(entries[i].path), NodeAsRead(entries[i].node)))
  }

  /** The peer found these, in its order. */
  ghost predicate Scans(found: seq<Entry>, t: Tree)
  {
    SortedBy(ByPath(), found) && forall e :: e in found <==> e.path in t && IsLeaf(t[e.path]) && e.node == t[e.path]
  }

  /** And this is what comes back. */
  ghost predicate Reports(present: seq<Entry>, t: Tree)
  {
    exists found :: Scans(found, t) && present == AllAsRead(found)
  }

  ghost predicate ReadAs(t: Tree, q: Path, p: Path)
  {
    q in t && IsLeaf(t[q]) && AsRead(q) == p
  }

  /** Of the places that are read as p, q is the last. */
  ghost predicate ShownAt(t: Tree, q: Path, p: Path)
  {
    ReadAs(t, q, p) && forall r :: ReadAs(t, r, p) ==> !Less(SortKey(q), SortKey(r))
  }

  /** The peer reports the entry. */
  ghost predicate Seen(t: Tree, e: Entry)
  {
    exists q :: ShownAt(t, q, e.path) && NodeAsRead(t[q]) == e.node
  }

  lemma {:induction false} AsReadStands(p: Path)
    ensures AsRead(AsRead(p)) == AsRead(p)
  {
    if p != [] {
      CoercedIsUtf8(p[0]);
      AsReadStands(p[1..]);
    }
  }

  lemma NodeAsReadStands(n: Node)
    ensures NodeAsRead(NodeAsRead(n)) == NodeAsRead(n)
  {
    if n.Link? { CoercedIsUtf8(n.target); }
  }

  ghost predicate NotAfter(a: string, b: string)
  {
    |a| == |b| && (a == b || Less(a, b))
  }

  lemma KeysInOrder(a: string, b: string, x: string, y: string)
    requires NotAfter(a, b) && NotAfter(x, y)
    ensures NotAfter(a + "/" + x, b + "/" + y)
    ensures a + "/" + x == b + "/" + y ==> a == b && x == y
  {
    assert a + "/" + x == a + ("/" + x) && b + "/" + y == b + ("/" + y);
    var s, t := a + ("/" + x), b + ("/" + y);
    if a == b {
      LessBehind("/", x, y);
      LessBehind(a, "/" + x, "/" + y);
      assert s[|a| + 1..] == x && t[|a| + 1..] == y;
    } else {
      LessInFront(a, b, "/" + x, "/" + y);
      LessIrreflexive(s);
    }
  }

  lemma NameSortsAfter(s: string)
    ensures NotAfter(Escaped(s), Escaped(Coerced(s)))
    ensures Escaped(s) == Escaped(Coerced(s)) ==> Coerced(s) == s
  {
    EscapedSortsBefore(s);
    CoercedExactly(s);
    CoercedIsUtf8(s);
    EscapedSortsBefore(Coerced(s));
    LessIrreflexive(Coerced(s));
  }

  /** A path that is read as another sorts before it. */
  lemma {:induction false} ReadSortsAfter(p: Path)
    ensures NotAfter(SortKey(p), SortKey(AsRead(p)))
    ensures SortKey(p) == SortKey(AsRead(p)) ==> AsRead(p) == p
  {
    if p != [] {
      var c := AsRead(p);
      NameSortsAfter(p[0]);
      ReadSortsAfter(p[1..]);
      assert c[1..] == AsRead(p[1..]) && c[0] == Coerced(p[0]);
      if |p| > 1 { KeysInOrder(Escaped(p[0]), Escaped(c[0]), SortKey(p[1..]), SortKey(c[1..])); }
    }
  }

  lemma SameFront(a: string, b: string, x: string, y: string)
    requires |a| == |b| && a + x == b + y
    ensures a == b && x == y
  {
    assert (a + x)[..|a|] == a && (b + y)[..|a|] == b;
    assert (a + x)[|a|..] == x && (b + y)[|a|..] == y;
  }

  lemma {:induction false} SortKeysDiffer(p: Path, q: Path)
    requires AsRead(p) == AsRead(q) && SortKey(p) == SortKey(q)
    ensures p == q
  {
    if p != [] {
      assert AsRead(p)[0] == Coerced(p[0]) && AsRead(q)[0] == Coerced(q[0]);
      assert AsRead(p)[1..] == AsRead(p[1..]) && AsRead(q)[1..] == AsRead(q[1..]);
      EscapedSortsBefore(p[0]);
      EscapedSortsBefore(q[0]);
      if |p| > 1 {
        var x, y := SortKey(p[1..]), SortKey(q[1..]);
        assert SortKey(p) == Escaped(p[0]) + ("/" + x) && SortKey(q) == Escaped(q[0]) + ("/" + y);
        SameFront(Escaped(p[0]), Escaped(q[0]), "/" + x, "/" + y);
        assert x == ("/" + x)[1..] && y == ("/" + y)[1..];
      } else {
        assert p[1..] == q[1..];
      }
      EscapedDiffer(p[0], q[0]);
      SortKeysDiffer(p[1..], q[1..]);
      assert p == [p[0]] + p[1..] && q == [q[0]] + q[1..];
    }
  }

  lemma OneIsShown(t: Tree, q: Path, r: Path, p: Path)
    requires ShownAt(t, q, p) && ShownAt(t, r, p)
    ensures q == r
  {
    LessTotal(SortKey(q), SortKey(r));
    SortKeysDiffer(q, r);
  }

  lemma NeverBefore(a: string, b: string)
    requires a == b || Less(a, b)
    ensures !Less(b, a)
  {
    LessIrreflexive(a);
    if Less(a, b) && Less(b, a) { LessTransitive(a, b, a); }
  }

  /** A name that is text hides all others that are read as it. */
  lemma TextIsShown(t: Tree, p: Path)
    requires ReadAs(t, p, p)
    ensures ShownAt(t, p, p)
  {
    forall r | ReadAs(t, r, p) ensures !Less(SortKey(p), SortKey(r)) {
      ReadSortsAfter(r);
      NeverBefore(SortKey(r), SortKey(p));
    }
  }

  /** What the daemon looks up in a report is what is shown. */
  lemma ReportShows(present: seq<Entry>, t: Tree, e: Entry)
    requires Reports(present, t)
    ensures Lookup(present, e.path) == Some(e.node) <==> Seen(t, e)
  {
    var found: seq<Entry> :| Scans(found, t) && present == AllAsRead(found);
    LookupFinds(present, e.path);
    if Lookup(present, e.path).Some? {
      var k :| LastAt(present, e.path, k) && present[k].node == Lookup(present, e.path).value;
      LastIsShown(found, t, e.path, k);
      if Seen(t, e) { ShownIs(t, found[k].path, e); }
    } else if Seen(t, e) {
      ShownIsFound(found, t, e);
    }
  }

  lemma ShownIs(t: Tree, q: Path, e: Entry)
    requires ShownAt(t, q, e.path) && Seen(t, e)
    ensures NodeAsRead(t[q]) == e.node
  {
    var r :| ShownAt(t, r, e.path) && NodeAsRead(t[r]) == e.node;
    OneIsShown(t, q, r, e.path);
  }

  lemma ShownIsFound(found: seq<Entry>, t: Tree, e: Entry)
    requires Scans(found, t) && Seen(t, e)
    ensures exists x :: x in AllAsRead(found) && x.path == e.path
  {
    var q :| ShownAt(t, q, e.path) && NodeAsRead(t[q]) == e.node;
    assert Entry(q, t[q]) in found;
    var k :| 0 <= k < |found| && found[k] == Entry(q, t[q]);
    assert AllAsRead(found)[k] in AllAsRead(found);
  }

  lemma LastIsShown(found: seq<Entry>, t: Tree, p: Path, k: int)
    requires Scans(found, t) && LastAt(AllAsRead(found), p, k)
    ensures ShownAt(t, found[k].path, p) && t[found[k].path] == found[k].node
  {
    assert found[k] in found;
    forall r | ReadAs(t, r, p) ensures !Less(SortKey(found[k].path), SortKey(r)) {
      assert Entry(r, t[r]) in found;
      var j :| 0 <= j < |found| && found[j] == Entry(r, t[r]);
      assert AllAsRead(found)[j].path == p;
      if j == k { LessIrreflexive(SortKey(r)); } else { assert !ByPath()(found[k], found[j]); }
    }
  }

  // ---------------------------------------------------------------- what a report is worth

  /** The expected entries the peer has, exactly. */
  ghost predicate Matched(t: Tree, e: Entry)
  {
    e.path in t && t[e.path] == e.node
  }

  /** Its name and its target are UTF-8. */
  predicate IsText(e: Entry)
  {
    AsRead(e.path) == e.path && NodeAsRead(e.node) == e.node
  }

  predicate AllText(entries: seq<Entry>)
  {
    forall i :: 0 <= i < |entries| ==> IsText(entries[i])
  }

  lemma {:induction false} IsTextExactly(p: Path)
    ensures AsRead(p) == p <==> forall i :: 0 <= i < |p| ==> IsUtf8(p[i])
  {
    if p != [] {
      CoercedExactly(p[0]);
      IsTextExactly(p[1..]);
      assert p == [p[0]] + p[1..];
      assert forall i :: 0 < i < |p| ==> p[i] == p[1..][i - 1];
    }
  }

  /** There, and reported as it is. */
  ghost predicate Verified(t: Tree, e: Entry)
  {
    Matched(t, e) && IsLeaf(e.node) && IsText(e)
  }

  lemma VerifiedIsSeen(t: Tree, e: Entry)
    requires Verified(t, e)
    ensures Seen(t, e)
  {
    TextIsShown(t, e.path);
  }

  /** What is not UTF-8 is never reported as expected, there or not. */
  lemma SeenIsText(t: Tree, e: Entry)
    requires Seen(t, e)
    ensures IsText(e)
  {
    var q :| ShownAt(t, q, e.path) && NodeAsRead(t[q]) == e.node;
    AsReadStands(q);
    NodeAsReadStands(t[q]);
  }

  /** What is reported as expected is there exactly when there is a file at its place, or a
      link whose target is UTF-8. */
  lemma SeenIsThereExactly(t: Tree, e: Entry)
    requires Seen(t, e)
    ensures Matched(t, e) <==> e.path in t && IsLeaf(t[e.path]) && NodeAsRead(t[e.path]) == t[e.path]
  {
    SeenIsText(t, e);
    var q :| ShownAt(t, q, e.path) && NodeAsRead(t[q]) == e.node;
    if e.path in t && IsLeaf(t[e.path]) {
      TextIsShown(t, e.path);
      OneIsShown(t, e.path, q, e.path);
    }
  }

  lemma {:induction false} LastRead(t: Tree, p: Path, places: set<Path>) returns (q: Path)
    requires places != {} && forall r :: r in places ==> ReadAs(t, r, p)
    ensures q in places && forall r :: r in places ==> !Less(SortKey(q), SortKey(r))
    decreases |places|
  {
    var first :| first in places;
    q := first;
    LessIrreflexive(SortKey(first));
    if places != {first} {
      assert !(places <= {first});
      var rest := LastRead(t, p, places - {first});
      if Less(SortKey(first), SortKey(rest)) {
        q := rest;
        NeverBefore(SortKey(first), SortKey(rest));
      } else {
        forall r | r in places ensures !Less(SortKey(first), SortKey(r)) {
          if r != first { NotBeforeEither(SortKey(first), SortKey(rest), SortKey(r)); }
        }
      }
    }
  }

  lemma NotBeforeEither(a: string, b: string, c: string)
    requires !Less(a, b) && !Less(b, c)
    ensures !Less(a, c)
  {
    LessTotal(a, b);
    if Less(a, c) && Less(b, a) { LessTransitive(b, a, c); }
  }

  lemma SomethingIsShown(t: Tree, r: Path, p: Path) returns (q: Path)
    requires ReadAs(t, r, p)
    ensures ShownAt(t, q, p)
  {
    var places := set x | x in t && ReadAs(t, x, p);
    assert r in places;
    q := LastRead(t, p, places);
  }

  /** A report speaks the truth about a place, whatever is expected there, exactly when a
      file is there, or a link whose target is UTF-8, or nothing is read as that place. */
  lemma ReportIsTrueExactly(t: Tree, p: Path)
    ensures (forall n :: Seen(t, Entry(p, n)) ==> Matched(t, Entry(p, n))) <==>
              (p in t && IsLeaf(t[p]) && NodeAsRead(t[p]) == t[p] && AsRead(p) == p) || !exists r :: ReadAs(t, r, p)
  {
    if r :| ReadAs(t, r, p) {
      var q := SomethingIsShown(t, r, p);
      AsReadStands(q);
      assert Seen(t, Entry(p, NodeAsRead(t[q])));
      if p in t && IsLeaf(t[p]) {
        TextIsShown(t, p);
        OneIsShown(t, p, q, p);
      }
      forall n | Seen(t, Entry(p, n)) ensures n == NodeAsRead(t[q]) {
        var s :| ShownAt(t, s, p) && NodeAsRead(t[s]) == n;
        OneIsShown(t, s, q, p);
      }
    }
  }

  ghost function SeenBytes(expected: seq<Entry>, t: Tree): nat
  {
    if expected == [] then 0
    else
      var e := expected[|expected| - 1];
      SeenBytes(expected[..|expected| - 1], t) + if Seen(t, e) then Size(e.node) else 0
  }

  lemma {:induction false} MissingIsUnseen(expected: seq<Entry>, present: seq<Entry>, t: Tree)
    requires Reports(present, t)
    ensures forall e :: e in Missing(expected, present) <==> e in expected && !Seen(t, e)
  {
    if expected != [] {
      var init, e := expected[..|expected| - 1], expected[|expected| - 1];
      assert expected == init + [e];
      MissingIsUnseen(init, present, t);
      ReportShows(present, t, e);
    }
  }

  /** What is missing and what the peer reports add up to the whole in bytes. */
  lemma {:induction false} MissingComplementsSeen(expected: seq<Entry>, present: seq<Entry>, t: Tree)
    requires Reports(present, t)
    ensures Bytes(Missing(expected, present)) + SeenBytes(expected, t) == Bytes(expected)
  {
    if expected != [] {
      var init, e := expected[..|expected| - 1], expected[|expected| - 1];
      assert expected == init + [e];
      MissingComplementsSeen(init, present, t);
      ReportShows(present, t, e);
      var m := Missing(init, present);
      assert (m + [e])[..|m|] == m && m + [] == m;
    }
  }

  lemma {:induction false} MissingKeepsPrefixFree(expected: seq<Entry>, present: seq<Entry>)
    requires PrefixFree(expected)
    ensures PrefixFree(Missing(expected, present))
  {
    if expected != [] {
      var init, e := expected[..|expected| - 1], expected[|expected| - 1];
      assert expected == init + [e];
      MissingKeepsPrefixFree(init, present);
      MissingComesFrom(init, present);
      var m := Missing(init, present);
      forall i | 0 <= i < |m| ensures !(m[i].path <= e.path) && !(e.path <= m[i].path) {
        assert m[i] in m;
        var k :| 0 <= k < |init| && init[k] == m[i];
        assert expected[k] == m[i] && expected[|init|] == e;
      }
    }
  }

  lemma {:induction false} MissingComesFrom(expected: seq<Entry>, present: seq<Entry>)
    ensures forall e :: e in Missing(expected, present) ==> e in expected
  {
    if expected != [] {
      MissingComesFrom(expected[..|expected| - 1], present);
      assert expected == expected[..|expected| - 1] + [expected[|expected| - 1]];
    }
  }

  // ---------------------------------------------------------------- clearing what is in the way

  /** Real directories at the first k ancestors of p, replacing links and files there. */
  function MakeParents(t: Tree, p: Path, k: nat): (r: Tree)
    requires k <= |p|
    ensures forall q :: q in r <==> q in t || (q <= p && |q| < k)
    ensures forall q :: q in r ==> r[q] == if q <= p && |q| < k then Dir else t[q]
  {
    if k == 0 then t
    else
      var u := MakeParents(t, p, k - 1);
      assert forall q :: q <= p && |q| == k - 1 ==> q == p[..k - 1];
      u[p[..k - 1] := Dir]
  }

  lemma ParentMade(t: Tree, p: Path)
    ensures (t - {p})[p := Dir] == t[p := Dir]
  {
  }

  predicate Clearable(t: Tree, p: Path)
  {
    p in t ==> !t[p].Other? // rmtree refuses a device or a pipe
  }

  /** One path of the cleanup script. */
  function ClearOne(t: Tree, p: Path): Tree
  {
    var u := MakeParents(t, p, |p|);
    if p !in u then u
    else if IsLeaf(u[p]) then u - {p}
    else map q | q in u && !(p <= q) :: u[q]
  }

  function ClearAll(t: Tree, paths: seq<Path>): Tree
  {
    if paths == [] then t else ClearOne(ClearAll(t, paths[..|paths| - 1]), paths[|paths| - 1])
  }

  /** The paths of entries as the cleanup script gets them, which is as JSON. */
  function PathsAsRead(entries: seq<Entry>): (r: seq<Path>)
    ensures |r| == |entries|
  {
    seq(|entries|, i requires 0 <= i < |entries| => AsRead(entries[i].path))
  }

  /** The place of p is free and can be reached without following a link. */
  ghost predicate Ready(t: Tree, p: Path)
  {
    p !in t && forall k :: 0 <= k < |p| ==> p[..k] in t && t[p[..k]] == Dir
  }

  /** What clearing p is for: p is prepared, and nothing is taken that does not lie at, above
      or below it. */
  ghost predicate Clears(t: Tree, p: Path, u: Tree)
  {
    && IsTree(u) && Ready(u, p)
    && (forall q :: !Related(p, q) ==> (q in t <==> q in u) && (q in t ==> u[q] == t[q]))
    && (forall q :: q in t && q <= p && q != p && t[q] == Dir ==> q in u && u[q] == Dir)
    && (forall q :: q in u ==> u[q] == Dir || (q in t && u[q] == t[q]))
  }

  predicate Related(p: Path, q: Path)
  {
    p <= q || q <= p
  }

  lemma ClearOneEffect(t: Tree, p: Path)
    requires IsTree(t) && Clearable(t, p)
    ensures Clears(t, p, ClearOne(t, p))
  {
    var m, u := MakeParents(t, p, |p|), ClearOne(t, p);
    forall q, k | q in u && 0 <= k < |q| ensures q[..k] in u && u[q[..k]] == Dir {
      if q <= p {
        assert q[..k] == p[..k];
      } else {
        assert q in t;
        if p <= q[..k] { assert p <= q; }
        assert q[..k] in t && t[q[..k]] == Dir;
      }
    }
    forall k | 0 <= k < |p| ensures p[..k] in u && u[p[..k]] == Dir {
      assert p[..k] <= p && !(p <= p[..k]);
    }
  }

  ghost predicate Unrelated(paths: seq<Path>, q: Path)
  {
    forall p :: p in paths ==> !Related(p, q)
  }

  /** What clearing any paths does: what is related to none of them stays, and no file or
      link that is related to one is left. */
  ghost predicate ClearsAll(t: Tree, paths: seq<Path>, u: Tree)
  {
    && IsTree(u)
    && (forall q :: q in u ==> u[q] == Dir || (q in t && u[q] == t[q]))
    && (forall q :: Unrelated(paths, q) ==> (q in t <==> q in u) && (q in t ==> u[q] == t[q]))
    && (forall q :: !Unrelated(paths, q) && q in u ==> u[q] == Dir)
  }

  lemma ClearsMore(t: Tree, init: seq<Path>, p: Path, before: Tree, u: Tree)
    requires ClearsAll(t, init, before) && Clears(before, p, u)
    ensures ClearsAll(t, init + [p], u)
  {
    forall q ensures Unrelated(init + [p], q) <==> Unrelated(init, q) && !Related(p, q) {
      assert p in init + [p];
    }
    forall q | Related(p, q) && q in u ensures u[q] == Dir { LeftIsDirectory(before, p, u, q); }
  }

  /** Nothing but directories is left above a cleared place, and nothing below it. */
  lemma LeftIsDirectory(t: Tree, p: Path, u: Tree, q: Path)
    requires Clears(t, p, u) && Related(p, q)
    ensures q in u ==> u[q] == Dir
  {
    if q <= p {
      assert q == p || p[..|q|] == q;
    } else {
      assert q[..|p|] == p && q[..|p|] !in u && |p| < |q|;
    }
  }

  lemma {:induction false} ClearAllEffect(t: Tree, paths: seq<Path>)
    requires IsTree(t) && forall p :: p in paths ==> Clearable(t, p)
    ensures ClearsAll(t, paths, ClearAll(t, paths))
  {
    if paths != [] {
      var init, p := paths[..|paths| - 1], paths[|paths| - 1];
      assert paths == init + [p] && p in paths;
      ClearAllEffect(t, init);
      assert Clearable(ClearAll(t, init), p);
      ClearOneEffect(ClearAll(t, init), p);
      ClearsMore(t, init, p, ClearAll(t, init), ClearAll(t, paths));
    }
  }

  ghost predicate Apart(paths: seq<Path>)
  {
    forall i, j :: 0 <= i < |paths| && 0 <= j < |paths| && paths[i] <= paths[j] ==> i == j
  }

  lemma ReadyUnlessRelated(t: Tree, p: Path, u: Tree, q: Path)
    requires Clears(t, p, u) && Ready(t, q) && !Related(p, q)
    ensures Ready(u, q)
  {
    forall k | 0 <= k < |q| ensures q[..k] in u && u[q[..k]] == Dir {
      assert p <= q[..k] ==> p <= q;
    }
  }

  lemma WithoutLast(paths: seq<Path>)
    requires paths != [] && Apart(paths)
    ensures var n := |paths| - 1; Apart(paths[..n]) && paths == paths[..n] + [paths[n]] && forall q :: q in paths[..n] ==> !Related(paths[n], q)
  {
    var n := |paths| - 1;
    assert forall i :: 0 <= i < n ==> paths[..n][i] == paths[i];
    forall q | q in paths[..n] ensures !Related(paths[n], q) {
      var i :| 0 <= i < n && paths[..n][i] == q;
      assert paths[i] == q;
    }
  }

  /** Places that do not lie above one another are all prepared. */
  lemma {:induction false} ClearingPrepares(t: Tree, paths: seq<Path>)
    requires IsTree(t) && Apart(paths) && forall p :: p in paths ==> Clearable(t, p)
    ensures forall p :: p in paths ==> Ready(ClearAll(t, paths), p)
  {
    if paths != [] {
      WithoutLast(paths);
      var init, p := paths[..|paths| - 1], paths[|paths| - 1];
      assert p in paths;
      ClearingPrepares(t, init);
      ClearAllEffect(t, init);
      assert Clearable(ClearAll(t, init), p);
      ClearOneEffect(ClearAll(t, init), p);
      PreparesMore(init, p, ClearAll(t, init), ClearAll(t, paths));
    }
  }

  lemma PreparesMore(init: seq<Path>, p: Path, before: Tree, u: Tree)
    requires Clears(before, p, u) && forall q :: q in init ==> Ready(before, q) && !Related(p, q)
    ensures forall q :: q in init + [p] ==> Ready(u, q)
  {
    forall q | q in init + [p] ensures Ready(u, q) {
      if q != p { ReadyUnlessRelated(before, p, u, q); }
    }
  }

  // ---------------------------------------------------------------- extraction

  /** Where a place leads to when links lie above it: what the peer's kernel says. */
  type Leads = Path -> Option<Path>

  predicate LinkAbove(t: Tree, p: Path)
  {
    exists k :: 0 <= k < |p| && p[..k] in t && t[p[..k]].Link?
  }

  /** Where an archive's entry is written. */
  function Place(t: Tree, p: Path, leads: Leads): Option<Path>
  {
    if LinkAbove(t, p) then leads(p) else Some(p)
  }

  /** A file can be written there: above it are directories or nothing, and there is no
      directory with something in it. */
  predicate Writable(t: Tree, q: Path)
  {
    && (forall k :: 0 <= k < |q| && q[..k] in t ==> t[q[..k]] == Dir)
    && (q in t && t[q] == Dir ==> forall r :: r in t && q <= r ==> r == q)
  }

  /** One entry of the archive, as tar writes it; what it cannot write it leaves out. */
  function ExtractOne(t: Tree, e: Entry, leads: Leads): Tree
  {
    var place := Place(t, e.path, leads);
    if place.Some? && Writable(t, place.value) then MakeParents(t, place.value, |place.value|)[place.value := e.node] else t
  }

  function ExtractAll(t: Tree, entries: seq<Entry>, leads: Leads): Tree
  {
    if entries == [] then t else ExtractOne(ExtractAll(t, entries[..|entries| - 1], leads), entries[|entries| - 1], leads)
  }

  /** An entry is written at its place alone. */
  lemma ExtractOneEffect(t: Tree, e: Entry, leads: Leads)
    requires IsTree(t) && IsLeaf(e.node)
    ensures var u := ExtractOne(t, e, leads);
            && IsTree(u)
            && (forall q :: q in u ==> (q in t && u[q] == t[q]) || u[q] == Dir || (Place(t, e.path, leads) == Some(q) && u[q] == e.node))
            && (forall q :: q in t && t[q] != Dir && Place(t, e.path, leads) != Some(q) ==> q in u && u[q] == t[q])
  {
    var place := Place(t, e.path, leads);
    if place.Some? && Writable(t, place.value) {
      var p := place.value;
      var m := MakeParents(t, p, |p|);
      var u := m[p := e.node];
      forall q, k | q in u && 0 <= k < |q| ensures q[..k] in u && u[q[..k]] == Dir {
        AboveIsDirectory(t, p, q, k);
      }
      assert forall q :: q <= p ==> q == p[..|q|];
    }
  }

  lemma AboveIsDirectory(t: Tree, p: Path, q: Path, k: nat)
    requires IsTree(t) && Writable(t, p) && k < |q| && (q in t || q <= p)
    ensures q[..k] != p && q[..k] in MakeParents(t, p, |p|) && MakeParents(t, p, |p|)[q[..k]] == Dir
  {
    var a := q[..k];
    if q <= p {
      assert q == p[..|q|] && a == p[..k];
    } else {
      assert q in t && a in t && t[a] == Dir && a <= q;
    }
  }

  ghost predicate NotAmong(entries: seq<Entry>, leads: Leads, q: Path)
  {
    forall i :: 0 <= i < |entries| ==> entries[i].path != q && leads(entries[i].path) != Some(q)
  }

  /** What no entry is written over stays, and nothing appears elsewhere. */
  lemma {:induction false} ExtractingKeeps(t: Tree, entries: seq<Entry>, leads: Leads)
    requires IsTree(t) && forall i :: 0 <= i < |entries| ==> IsLeaf(entries[i].node)
    ensures var u := ExtractAll(t, entries, leads);
            && IsTree(u)
            && (forall q :: q in u && u[q].Other? ==> q in t && t[q].Other?)
            && (forall q :: NotAmong(entries, leads, q) ==>
                  && (q in t && t[q] != Dir ==> q in u && u[q] == t[q])
                  && (q in u && u[q] != Dir ==> q in t && t[q] == u[q]))
  {
    if entries != [] {
      var n := |entries| - 1;
      var init, e := entries[..n], entries[n];
      assert forall i :: 0 <= i < n ==> init[i] == entries[i];
      ExtractingKeeps(t, init, leads);
      var before := ExtractAll(t, init, leads);
      ExtractOneEffect(before, e, leads);
      forall q | NotAmong(entries, leads, q) ensures NotAmong(init, leads, q) && Place(before, e.path, leads) != Some(q) {
        assert entries[n] == e;
      }
    }
  }

  /** The entries in place. */
  function Placed(t: Tree, entries: seq<Entry>): Tree
  {
    if entries == [] then t
    else Placed(t, entries[..|entries| - 1])[entries[|entries| - 1].path := entries[|entries| - 1].node]
  }

  lemma {:induction false} NoParentsToMake(t: Tree, p: Path, k: nat)
    requires k <= |p| && forall j :: 0 <= j < k ==> p[..j] in t && t[p[..j]] == Dir
    ensures MakeParents(t, p, k) == t
  {
    if k > 0 {
      NoParentsToMake(t, p, k - 1);
      assert t[p[..k - 1] := Dir] == t;
    }
  }

  lemma ReadyIsWritten(t: Tree, e: Entry, leads: Leads)
    requires Ready(t, e.path)
    ensures ExtractOne(t, e, leads) == t[e.path := e.node]
  {
    NoParentsToMake(t, e.path, |e.path|);
  }

  lemma ReadyStays(t: Tree, e: Entry, q: Path)
    requires Ready(t, q) && !(e.path <= q)
    ensures Ready(t[e.path := e.node], q)
  {
    assert forall k :: 0 <= k < |q| ==> q[..k] <= q;
  }

  /** Prepared places get their entries, wherever links lead. */
  lemma {:induction false} ReadyArePlaced(t: Tree, entries: seq<Entry>, leads: Leads)
    requires PrefixFree(entries) && forall e :: e in entries ==> Ready(t, e.path)
    ensures ExtractAll(t, entries, leads) == Placed(t, entries)
    ensures forall q :: Ready(t, q) && (forall e :: e in entries ==> !(e.path <= q)) ==> Ready(Placed(t, entries), q)
  {
    if entries != [] {
      var n := |entries| - 1;
      var init, e := entries[..n], entries[n];
      EntriesWithoutLast(entries);
      ReadyArePlaced(t, init, leads);
      ReadyIsWritten(Placed(t, init), e, leads);
      forall q | Ready(t, q) && forall x :: x in entries ==> !(x.path <= q) ensures Ready(Placed(t, entries), q) {
        ReadyStays(Placed(t, init), e, q);
      }
    }
  }

  lemma EntriesWithoutLast(entries: seq<Entry>)
    requires entries != [] && PrefixFree(entries)
    ensures var n := |entries| - 1; PrefixFree(entries[..n]) && entries == entries[..n] + [entries[n]]
    ensures var n := |entries| - 1; forall e :: e in entries[..n] ==> !(e.path <= entries[n].path) && !(entries[n].path <= e.path)
  {
    var n := |entries| - 1;
    assert forall i :: 0 <= i < n ==> entries[..n][i] == entries[i];
    forall e | e in entries[..n] ensures !(e.path <= entries[n].path) && !(entries[n].path <= e.path) {
      var i :| 0 <= i < n && entries[..n][i] == e;
      assert entries[i] == e;
    }
  }

  lemma {:induction false} ExtractPlaces(t: Tree, entries: seq<Entry>)
    requires PrefixFree(entries)
    ensures forall q :: (forall e :: e in entries ==> e.path != q) ==> (q in Placed(t, entries) <==> q in t) && (q in t ==> Placed(t, entries)[q] == t[q])
    ensures forall e :: e in entries ==> Matched(Placed(t, entries), e)
  {
    if entries != [] {
      EntriesWithoutLast(entries);
      ExtractPlaces(t, entries[..|entries| - 1]);
      assert entries[|entries| - 1] in entries;
    }
  }

  // ---------------------------------------------------------------- one attempt, three attempts

  /** How far an attempt gets: whether each remote command works, how many paths were
      cleared and entries written before a failure, what a cut-off stream left of the entry it
      was writing, and where places below links lead. */
  datatype Attempt = Attempt(scanned: bool, cleared: bool, clearedPaths: nat, streamed: bool, written: nat,
                             partial: Option<Node>, rescanned: bool, leads: Leads)

  function Take(entries: seq<Entry>, n: nat): seq<Entry>
  {
    if n < |entries| then entries[..n] else entries
  }

  function Sent(missing: seq<Entry>, a: Attempt): seq<Entry>
  {
    if a.streamed then missing
    else if a.partial.Some? && a.written < |missing|
    then missing[..a.written] + [Entry(missing[a.written].path, a.partial.value)]
    else Take(missing, a.written)
  }

  function Cleaned(t: Tree, missing: seq<Entry>, a: Attempt): Tree
  {
    ClearAll(t, PathsAsRead(if a.cleared then missing else Take(missing, a.clearedPaths)))
  }

  /** The tree after an attempt that found `missing` not in place. */
  function After(t: Tree, missing: seq<Entry>, a: Attempt): Tree
  {
    if !a.scanned || missing == [] then t
    else if !a.cleared then Cleaned(t, missing, a)
    else ExtractAll(Cleaned(t, missing, a), Sent(missing, a), a.leads)
  }

  /** What the sender knows of its manifest, and that nothing blocks the paths it clears for
      good. */
  ghost predicate Transferable(t: Tree, expected: seq<Entry>)
  {
    IsTree(t) && PrefixFree(expected) && forall e :: e in expected ==> Clearable(t, AsRead(e.path)) && IsLeaf(e.node)
  }

  ghost predicate Misses(t: Tree, expected: seq<Entry>, missing: seq<Entry>)
  {
    PrefixFree(missing) && forall e :: e in missing <==> e in expected && !Seen(t, e)
  }

  predicate Works(a: Attempt)
  {
    a.scanned && a.cleared && a.streamed && a.rescanned
  }

  predicate LeafPartial(a: Attempt)
  {
    a.partial.Some? ==> IsLeaf(a.partial.value)
  }

  /** A path that is not UTF-8 reads as one at, above or below the entry's. */
  predicate Hit(expected: seq<Entry>, e: Entry)
  {
    exists m :: m in expected && AsRead(m.path) != m.path && Related(AsRead(m.path), e.path)
  }

  /** No link leads from an expected place to the entry's. */
  predicate Aside(expected: seq<Entry>, a: Attempt, e: Entry)
  {
    forall m :: m in expected ==> a.leads(m.path) != Some(e.path)
  }

  lemma MissingFacts(t: Tree, expected: seq<Entry>, present: seq<Entry>)
    requires PrefixFree(expected) && Reports(present, t)
    ensures var m := Missing(expected, present); Misses(t, expected, m) && (m == [] <==> forall e :: e in expected ==> Seen(t, e))
  {
    MissingKeepsPrefixFree(expected, present);
    MissingIsUnseen(expected, present, t);
    var m := Missing(expected, present);
    if m != [] { assert m[0] in m; }
  }

  lemma SentFacts(missing: seq<Entry>, a: Attempt)
    requires LeafPartial(a) && forall e :: e in missing ==> IsLeaf(e.node)
    ensures |Sent(missing, a)| <= |missing|
    ensures forall i :: 0 <= i < |Sent(missing, a)| ==> Sent(missing, a)[i].path == missing[i].path && IsLeaf(Sent(missing, a)[i].node)
  {
    var sent := Sent(missing, a);
    forall i | 0 <= i < |sent| ensures sent[i].path == missing[i].path && IsLeaf(sent[i].node) {
      assert missing[i] in missing;
      assert sent[i] == missing[i] || (i == a.written && sent[i] == Entry(missing[i].path, a.partial.value));
    }
  }

  lemma ReadAllFrom(expected: seq<Entry>, some: seq<Entry>)
    requires forall m :: m in some ==> m in expected
    ensures forall p :: p in PathsAsRead(some) ==> exists m :: m in some && m in expected && AsRead(m.path) == p
    ensures forall m :: m in some ==> AsRead(m.path) in PathsAsRead(some)
  {
    forall p | p in PathsAsRead(some) ensures exists m :: m in some && m in expected && AsRead(m.path) == p {
      var i :| 0 <= i < |some| && PathsAsRead(some)[i] == p;
      assert some[i] in some;
    }
    forall m | m in some ensures AsRead(m.path) in PathsAsRead(some) {
      var i :| 0 <= i < |some| && some[i] == m;
      assert PathsAsRead(some)[i] in PathsAsRead(some);
    }
  }

  /** A verified entry is related to a path that is cleared only through one that is not
      UTF-8: by prefix-freedom no other can lie above or below it. */
  lemma RelatedIsHit(t: Tree, expected: seq<Entry>, e: Entry, m: Entry)
    requires PrefixFree(expected) && e in expected && m in expected && Seen(t, e) && !Seen(t, m) && Related(AsRead(m.path), e.path)
    ensures AsRead(m.path) != m.path
  {
    var i :| 0 <= i < |expected| && expected[i] == e;
    var j :| 0 <= j < |expected| && expected[j] == m;
    assert i != j;
  }

  /** Clearing some unreported places takes a verified entry exactly when one of them that
      is not UTF-8 reads as a path related to it. */
  lemma ClearingTakesExactly(t: Tree, expected: seq<Entry>, some: seq<Entry>, e: Entry)
    requires Transferable(t, expected) && e in expected && Verified(t, e)
    requires forall m :: m in some ==> m in expected && !Seen(t, m)
    ensures Matched(ClearAll(t, PathsAsRead(some)), e) <==> !exists m :: m in some && AsRead(m.path) != m.path && Related(AsRead(m.path), e.path)
  {
    var paths := PathsAsRead(some);
    ReadAllFrom(expected, some);
    ClearAllEffect(t, paths);
    UnrelatedExactly(t, expected, some, e);
  }

  lemma UnrelatedExactly(t: Tree, expected: seq<Entry>, some: seq<Entry>, e: Entry)
    requires PrefixFree(expected) && e in expected && Verified(t, e)
    requires forall m :: m in some ==> m in expected && !Seen(t, m)
    ensures Unrelated(PathsAsRead(some), e.path) <==> !exists m :: m in some && AsRead(m.path) != m.path && Related(AsRead(m.path), e.path)
  {
    ReadAllFrom(expected, some);
    VerifiedIsSeen(t, e);
    forall p | p in PathsAsRead(some) && Related(p, e.path) ensures exists m :: m in some && AsRead(m.path) != m.path && Related(AsRead(m.path), e.path) {
      var m :| m in some && m in expected && AsRead(m.path) == p;
      RelatedIsHit(t, expected, e, m);
    }
  }

  lemma ClearingKeepsTransferable(t: Tree, expected: seq<Entry>, some: seq<Entry>)
    requires Transferable(t, expected) && forall m :: m in some ==> m in expected
    ensures Transferable(ClearAll(t, PathsAsRead(some)), expected)
  {
    ReadAllFrom(expected, some);
    ClearAllEffect(t, PathsAsRead(some));
  }

  lemma Taken(t: Tree, expected: seq<Entry>, missing: seq<Entry>, n: nat)
    requires Misses(t, expected, missing)
    ensures forall m :: m in Take(missing, n) ==> m in missing && m in expected && !Seen(t, m)
  {
  }

  lemma AttemptStaysTransferable(t: Tree, expected: seq<Entry>, missing: seq<Entry>, a: Attempt)
    requires Transferable(t, expected) && Misses(t, expected, missing) && LeafPartial(a)
    ensures Transferable(After(t, missing, a), expected)
  {
    var some := if a.cleared then missing else Take(missing, a.clearedPaths);
    Taken(t, expected, missing, a.clearedPaths);
    ClearingKeepsTransferable(t, expected, some);
    SentFacts(missing, a);
    ExtractingKeeps(Cleaned(t, missing, a), Sent(missing, a), a.leads);
  }

  lemma NotSentOver(t: Tree, expected: seq<Entry>, missing: seq<Entry>, a: Attempt, e: Entry)
    requires PrefixFree(expected) && Misses(t, expected, missing) && e in expected && Seen(t, e) && LeafPartial(a)
    requires Aside(expected, a, e) && forall m :: m in expected ==> IsLeaf(m.node)
    ensures NotAmong(Sent(missing, a), a.leads, e.path)
  {
    SentFacts(missing, a);
    forall i | 0 <= i < |Sent(missing, a)| ensures Sent(missing, a)[i].path != e.path && a.leads(Sent(missing, a)[i].path) != Some(e.path) {
      var m := missing[i];
      assert m in missing;
      var j :| 0 <= j < |expected| && expected[j] == e;
      var k :| 0 <= k < |expected| && expected[k] == m;
      assert j != k;
    }
  }

  /** An attempt cut anywhere keeps a verified entry that no path hits; one that clears all
      it wants to loses exactly those that one hits. No link leads onto the entry. */
  lemma AttemptKeepsExactly(t: Tree, expected: seq<Entry>, missing: seq<Entry>, a: Attempt, e: Entry)
    requires Transferable(t, expected) && Misses(t, expected, missing) && LeafPartial(a)
    requires e in expected && Verified(t, e) && Aside(expected, a, e)
    ensures !Hit(expected, e) ==> Verified(After(t, missing, a), e)
    ensures a.scanned && a.cleared ==> (Matched(After(t, missing, a), e) <==> !Hit(expected, e))
  {
    VerifiedIsSeen(t, e);
    forall m | m in expected && AsRead(m.path) != m.path ensures m in missing {
      if Seen(t, m) { SeenIsText(t, m); }
    }
    var some := if a.cleared then missing else Take(missing, a.clearedPaths);
    Taken(t, expected, missing, a.clearedPaths);
    ClearingTakesExactly(t, expected, some, e);
    ClearingKeepsTransferable(t, expected, some);
    SentFacts(missing, a);
    NotSentOver(t, expected, missing, a, e);
    ExtractingKeeps(Cleaned(t, missing, a), Sent(missing, a), a.leads);
  }

  // A manifest in which everything is UTF-8.

  lemma {:induction false} ReadKeepsPrefix(p: Path, q: Path)
    requires p <= q
    ensures AsRead(p) <= AsRead(q)
  {
    if p != [] { ReadKeepsPrefix(p[1..], q[1..]); }
  }

  /** What is read as the entry's place is the same. */
  ghost predicate SameShown(t: Tree, u: Tree, p: Path)
  {
    forall q :: (ReadAs(t, q, p) <==> ReadAs(u, q, p)) && (ReadAs(t, q, p) ==> u[q] == t[q])
  }

  lemma SeenStays(t: Tree, u: Tree, e: Entry)
    requires SameShown(t, u, e.path) && Seen(t, e)
    ensures Seen(u, e)
  {
    var q :| ShownAt(t, q, e.path) && NodeAsRead(t[q]) == e.node;
    assert ShownAt(u, q, e.path);
  }

  lemma TextPaths(expected: seq<Entry>, some: seq<Entry>)
    requires AllText(expected) && PrefixFree(some) && forall m :: m in some ==> m in expected
    ensures Apart(PathsAsRead(some)) && |PathsAsRead(some)| == |some|
    ensures forall i :: 0 <= i < |some| ==> PathsAsRead(some)[i] == some[i].path
  {
    forall i | 0 <= i < |some| ensures AsRead(some[i].path) == some[i].path {
      assert some[i] in some;
    }
  }

  /** Nothing that is read as a reported entry's place is related to a path that is cleared. */
  lemma ShownIsUnrelated(t: Tree, expected: seq<Entry>, some: seq<Entry>, e: Entry, q: Path)
    requires AllText(expected) && PrefixFree(expected) && PrefixFree(some) && forall m :: m in some ==> m in expected && !Seen(t, m)
    requires e in expected && Seen(t, e) && AsRead(q) == e.path
    ensures Unrelated(PathsAsRead(some), q)
  {
    TextPaths(expected, some);
    forall p | p in PathsAsRead(some) ensures !Related(p, q) {
      var i :| 0 <= i < |some| && PathsAsRead(some)[i] == p;
      assert some[i] in some;
      if p <= q { ReadKeepsPrefix(p, q); }
      if q <= p { ReadKeepsPrefix(q, p); }
      if Related(AsRead(p), e.path) { RelatedIsHit(t, expected, e, some[i]); }
    }
  }

  lemma PlacingKeepsShown(t: Tree, expected: seq<Entry>, sent: seq<Entry>, e: Entry)
    requires PrefixFree(sent) && AsRead(e.path) == e.path && forall x :: x in sent ==> x.path != e.path && AsRead(x.path) == x.path
    ensures SameShown(t, Placed(t, sent), e.path)
  {
    ExtractPlaces(t, sent);
    forall q | AsRead(q) == e.path ensures forall x :: x in sent ==> x.path != q {}
  }

  lemma SentIsApart(t: Tree, expected: seq<Entry>, missing: seq<Entry>, a: Attempt)
    requires PrefixFree(missing) && LeafPartial(a) && forall e :: e in missing ==> IsLeaf(e.node)
    ensures PrefixFree(Sent(missing, a))
    ensures forall x :: x in Sent(missing, a) ==> exists m :: m in missing && m.path == x.path
  {
    SentFacts(missing, a);
    var sent := Sent(missing, a);
    forall i, j | 0 <= i < |sent| && 0 <= j < |sent| && sent[i].path <= sent[j].path ensures i == j {
      assert missing[i].path <= missing[j].path;
    }
    forall x | x in sent ensures exists m :: m in missing && m.path == x.path {
      var i :| 0 <= i < |sent| && sent[i] == x;
      assert missing[i] in missing;
    }
  }

  /** The prepared places get what is sent. */
  lemma TextIsPlaced(t: Tree, expected: seq<Entry>, missing: seq<Entry>, a: Attempt)
    requires AllText(expected) && Transferable(t, expected) && Misses(t, expected, missing) && LeafPartial(a) && a.cleared
    ensures var clean := Cleaned(t, missing, a); ExtractAll(clean, Sent(missing, a), a.leads) == Placed(clean, Sent(missing, a))
  {
    TextPaths(expected, missing);
    ReadAllFrom(expected, missing);
    ClearingPrepares(t, PathsAsRead(missing));
    SentFacts(missing, a);
    SentIsApart(t, expected, missing, a);
    forall x | x in Sent(missing, a) ensures x.path in PathsAsRead(missing) {
      var i :| 0 <= i < |Sent(missing, a)| && Sent(missing, a)[i] == x;
      assert PathsAsRead(missing)[i] == x.path;
    }
    ReadyArePlaced(Cleaned(t, missing, a), Sent(missing, a), a.leads);
  }

  /** What is reported stays reported, whatever happens in an attempt. */
  lemma TextAttemptKeeps(t: Tree, expected: seq<Entry>, missing: seq<Entry>, a: Attempt, e: Entry)
    requires AllText(expected) && Transferable(t, expected) && Misses(t, expected, missing) && LeafPartial(a)
    requires e in expected && Seen(t, e)
    ensures SameShown(t, After(t, missing, a), e.path)
  {
    var some := if a.cleared then missing else Take(missing, a.clearedPaths);
    TakeKeepsPrefixFree(missing, a.clearedPaths);
    ReadAllFrom(expected, some);
    ClearAllEffect(t, PathsAsRead(some));
    forall q | AsRead(q) == e.path ensures Unrelated(PathsAsRead(some), q) {
      ShownIsUnrelated(t, expected, some, e, q);
    }
    assert SameShown(t, Cleaned(t, missing, a), e.path);
    if a.cleared {
      TextIsPlaced(t, expected, missing, a);
      SentIsApart(t, expected, missing, a);
      SeenIsText(t, e);
      forall x | x in Sent(missing, a) ensures x.path != e.path && AsRead(x.path) == x.path {
        var m :| m in missing && m.path == x.path;
        if Related(AsRead(m.path), e.path) { RelatedIsHit(t, expected, e, m); }
      }
      PlacingKeepsShown(Cleaned(t, missing, a), expected, Sent(missing, a), e);
    }
  }

  lemma TakeKeepsPrefixFree(entries: seq<Entry>, n: nat)
    requires PrefixFree(entries)
    ensures PrefixFree(Take(entries, n))
    ensures forall e :: e in Take(entries, n) ==> e in entries
  {
    var u := Take(entries, n);
    assert forall i :: 0 <= i < |u| ==> u[i] == entries[i];
  }

  /** One attempt on such a manifest: reported entries stay reported, verified ones stay
      verified, and one that works has all of them reported. */
  lemma TextAttempt(t: Tree, expected: seq<Entry>, missing: seq<Entry>, a: Attempt)
    requires AllText(expected) && Transferable(t, expected) && Misses(t, expected, missing) && LeafPartial(a)
    ensures forall e :: e in expected && Seen(t, e) ==> Seen(After(t, missing, a), e)
    ensures forall e :: e in expected && Verified(t, e) ==> Verified(After(t, missing, a), e)
    ensures a.scanned && a.cleared && a.streamed ==> forall e :: e in expected ==> Seen(After(t, missing, a), e)
  {
    var u := After(t, missing, a);
    forall e | e in expected && Seen(t, e) ensures Seen(u, e) && (Verified(t, e) ==> Verified(u, e)) {
      TextAttemptKeeps(t, expected, missing, a, e);
      SeenStays(t, u, e);
      if Verified(t, e) { assert ReadAs(t, e.path, e.path); }
    }
    forall e | e in expected && Verified(t, e) ensures Seen(t, e) { VerifiedIsSeen(t, e); }
    if a.scanned && a.cleared && a.streamed {
      TextIsPlaced(t, expected, missing, a);
      ExtractPlaces(Cleaned(t, missing, a), missing);
      forall e | e in expected && !Seen(t, e) ensures Seen(u, e) { VerifiedIsSeen(u, e); }
    }
  }

  ghost predicate AllSeen(t: Tree, expected: seq<Entry>)
  {
    forall e :: e in expected ==> Seen(t, e)
  }

  lemma AllSeenIsText(t: Tree, expected: seq<Entry>)
    requires AllSeen(t, expected)
    ensures AllText(expected)
  {
    forall i | 0 <= i < |expected| ensures IsText(expected[i]) {
      assert expected[i] in expected;
      SeenIsText(t, expected[i]);
    }
  }

  /** What one attempt does, for all entries at once. */
  lemma AttemptFacts(t: Tree, expected: seq<Entry>, missing: seq<Entry>, a: Attempt)
    requires Transferable(t, expected) && Misses(t, expected, missing) && LeafPartial(a)
    ensures var u := After(t, missing, a);
            && Transferable(u, expected)
            && (forall e :: e in expected && Verified(t, e) && !Hit(expected, e) && (AllText(expected) || Aside(expected, a, e)) ==> Verified(u, e))
            && (forall e :: e in expected && Verified(t, e) && Hit(expected, e) && Aside(expected, a, e) && a.scanned && a.cleared ==> !Matched(u, e))
            && (AllText(expected) && a.scanned && a.cleared && a.streamed ==> AllSeen(u, expected))
  {
    AttemptStaysTransferable(t, expected, missing, a);
    if AllText(expected) { TextAttempt(t, expected, missing, a); }
    forall e | e in expected && Verified(t, e) && Aside(expected, a, e)
      ensures !Hit(expected, e) ==> Verified(After(t, missing, a), e)
      ensures a.scanned && a.cleared ==> (Matched(After(t, missing, a), e) <==> !Hit(expected, e))
    {
      AttemptKeepsExactly(t, expected, missing, a, e);
    }
  }

  class Staging {
    var nodes: Tree

    constructor (nodes: Tree)
      ensures this.nodes == nodes
    {
      this.nodes := nodes;
    }

    /** The scanner on the peer: every file and link in the order of their paths, as the
        daemon reads it. */
    method RemoteManifest() returns (present: seq<Entry>)
      ensures Reports(present, nodes)
    {
      var found: seq<Entry> := [];
      var rest := set p | p in nodes && IsLeaf(nodes[p]);
      ghost var all := rest;
      while rest != {}
        invariant rest <= all
        invariant forall e :: e in found <==> e.path in all - rest && e.node == nodes[e.path]
        decreases |rest|
      {
        var p :| p in rest;
        found := found + [Entry(p, nodes[p])];
        rest := rest - {p};
      }
      ByPathOrders();
      SortByWorks(ByPath(), found);
      var sorted := SortBy(ByPath(), found);
      assert forall e :: e in sorted <==> e in multiset(sorted);
      assert forall e :: e in found <==> e in multiset(found);
      assert Scans(sorted, nodes);
      present := AllAsRead(sorted);
    }

    /** Turns everything above p into real directories. */
    method MakeRoom(p: Path)
      modifies this
      ensures nodes == MakeParents(old(nodes), p, |p|)
    {
      for k := 0 to |p|
        invariant nodes == MakeParents(old(nodes), p, k)
      {
        var current := p[..k];
        ParentMade(nodes, current);
        if current in nodes && nodes[current] != Dir { nodes := nodes - {current}; } // unlink
        nodes := nodes[current := Dir]; // mkdir, if it is not there yet
      }
    }

    method ClearTarget(target: Path)
      modifies this
      ensures nodes == ClearOne(old(nodes), target)
    {
      MakeRoom(target);
      if target in nodes {
        if IsLeaf(nodes[target]) { nodes := nodes - {target}; }
        else { nodes := map q | q in nodes && !(target <= q) :: nodes[q]; } // rmtree
      }
    }

    /** The cleanup script. */
    method ClearPaths(paths: seq<Path>)
      modifies this
      ensures nodes == ClearAll(old(nodes), paths)
    {
      for i := 0 to |paths|
        invariant nodes == ClearAll(old(nodes), paths[..i])
      {
        assert paths[..i + 1][..i] == paths[..i];
        ClearTarget(paths[i]);
      }
      assert paths[..|paths|] == paths;
    }

    /** It gets the paths as JSON. */
    method ClearInvalid(entries: seq<Entry>)
      modifies this
      ensures nodes == ClearAll(old(nodes), PathsAsRead(entries))
    {
      ClearPaths(PathsAsRead(entries));
    }

    method ExtractEntry(e: Entry, leads: Leads)
      modifies this
      ensures nodes == ExtractOne(old(nodes), e, leads)
    {
      var place := Place(nodes, e.path, leads);
      if place.None? || !Writable(nodes, place.value) { return; }
      MakeRoom(place.value);
      nodes := nodes[place.value := e.node];
    }

    method Extract(entries: seq<Entry>, leads: Leads)
      modifies this
      ensures nodes == ExtractAll(old(nodes), entries, leads)
    {
      for i := 0 to |entries|
        invariant nodes == ExtractAll(old(nodes), entries[..i], leads)
      {
        assert entries[..i + 1][..i] == entries[..i];
        ExtractEntry(entries[i], leads);
      }
      assert entries[..|entries|] == entries;
    }

    /** Nothing changes when all is reported. A verified entry that no path hits and no link
        leads to stays verified; if all paths are cleared, one that a path hits is lost. The
        transfer succeeds exactly when in the end all is reported, which takes a manifest in
        UTF-8, and with one an attempt that works is enough. */
    method IncrementalTransfer(expected: seq<Entry>, a: Attempt) returns (ok: bool)
      requires Transferable(nodes, expected) && LeafPartial(a)
      modifies this
      ensures Transferable(nodes, expected)
      ensures AllSeen(old(nodes), expected) ==> nodes == old(nodes)
      ensures forall e :: e in expected && Verified(old(nodes), e) && !Hit(expected, e) && (AllText(expected) || Aside(expected, a, e)) ==> Verified(nodes, e)
      ensures forall e :: e in expected && Verified(old(nodes), e) && Hit(expected, e) && Aside(expected, a, e) && a.scanned && a.cleared ==> !Matched(nodes, e)
      ensures ok <==> a.scanned && (AllSeen(old(nodes), expected) || (Works(a) && AllSeen(nodes, expected)))
      ensures AllText(expected) && Works(a) ==> ok
    {
      if !a.scanned { return false; }
      ghost var before := nodes;
      var present := RemoteManifest();
      var missing, missingBytes := MissingEntries(expected, present);
      MissingFacts(nodes, expected, present);
      AttemptFacts(nodes, expected, missing, a);
      if |missing| == 0 { return true; }
      if !a.cleared {
        ClearInvalid(Take(missing, a.clearedPaths));
        return false;
      }
      ClearInvalid(missing);
      Extract(Sent(missing, a), a.leads);
      assert nodes == After(before, missing, a);
      if !a.streamed || !a.rescanned { return false; }
      var after := RemoteManifest();
      var remaining, _ := MissingEntries(expected, after);
      MissingFacts(nodes, expected, after);
      ok := |remaining| == 0;
    }

    /** Three attempts; `cancelled(k)` is the context's state before attempt k. */
    method RetryPeerTransfer(expected: seq<Entry>, attempt: nat -> Attempt, cancelled: nat -> bool) returns (ok: bool)
      requires Transferable(nodes, expected) && forall k :: LeafPartial(attempt(k))
      modifies this
      ensures Transferable(nodes, expected)
      ensures forall e :: e in expected && Verified(old(nodes), e) && !Hit(expected, e) && (AllText(expected) || forall k :: Aside(expected, attempt(k), e))
                ==> Verified(nodes, e)
      ensures ok ==> AllText(expected) && AllSeen(nodes, expected)
      ensures AllText(expected) && (forall k :: !cancelled(k)) && (exists k :: 1 <= k <= 3 && Works(attempt(k))) ==> ok
    {
      for k := 1 to 4
        invariant Transferable(nodes, expected)
        invariant forall e :: e in expected && Verified(old(nodes), e) && !Hit(expected, e) && (AllText(expected) || forall k :: Aside(expected, attempt(k), e))
                    ==> Verified(nodes, e)
        invariant AllText(expected) ==> forall j :: 1 <= j < k ==> !Works(attempt(j))
      {
        if cancelled(k) { return false; }
        var done := IncrementalTransfer(expected, attempt(k));
        if done {
          AllSeenIsText(nodes, expected);
          return true;
        }
      }
      ok := false;
    }
  }

  const NEW := ['\U{00FF}']
  const CLASH := [Entry([REPLACEMENT], File(1, "a")), Entry([NEW], File(1, "b"))]

  lemma ClashFacts()
    ensures AsRead([NEW]) == [REPLACEMENT] && AsRead([REPLACEMENT]) == [REPLACEMENT] && NEW != REPLACEMENT
    ensures PrefixFree(CLASH) && Hit(CLASH, CLASH[0]) && !AllText(CLASH)
  {
    assert NEW[1..] == "" && Coerced("") == "";
    assert Coerced(NEW) == REPLACEMENT + "";
    CoercedIsUtf8(NEW);
    assert Coerced(NEW) == REPLACEMENT && RuneLength(REPLACEMENT) == 3;
    assert AsRead([]) == [] && [NEW][1..] == [] && [REPLACEMENT][1..] == [];
    assert AsRead([NEW]) == [Coerced(NEW)] + [] && AsRead([REPLACEMENT]) == [Coerced(REPLACEMENT)] + [];
    assert CLASH[1] in CLASH;
  }

  /** A name of one byte that is no character is missing. Clearing it takes the verified entry
      whose name that byte is read as, and no attempt succeeds. */
  method LostEntryRun() returns (staging: Staging, ok: bool)
    ensures fresh(staging) && !ok && !Matched(staging.nodes, CLASH[0])
  {
    ClashFacts();
    staging := new Staging(map[[] := Dir, [REPLACEMENT] := File(1, "a")]);
    assert Verified(staging.nodes, CLASH[0]) && Transferable(staging.nodes, CLASH);
    var a := Attempt(true, true, 0, true, 0, None, true, _ => None);
    ok := staging.IncrementalTransfer(CLASH, a);
    if ok { AllSeenIsText(staging.nodes, CLASH); }
  }

  /** And a file under such a name, left from before, is taken for the expected one. */
  method DeceivedRun() returns (staging: Staging, ok: bool)
    ensures fresh(staging) && ok && [REPLACEMENT] !in staging.nodes
  {
    ClashFacts();
    var expected := CLASH[..1];
    staging := new Staging(map[[] := Dir, [NEW] := File(1, "a")]);
    assert ReadAs(staging.nodes, [NEW], [REPLACEMENT]);
    var q := SomethingIsShown(staging.nodes, [NEW], [REPLACEMENT]);
    assert q == [NEW];
    assert Seen(staging.nodes, CLASH[0]);
    var a := Attempt(true, true, 0, true, 0, None, true, _ => None);
    ok := staging.IncrementalTransfer(expected, a);
  }
}

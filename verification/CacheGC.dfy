/** Garbage collection of the model cache: which revisions are still needed, which become
    candidates, and what removing candidates and pruning blobs leaves behind. */
module CacheGC {
  import opened Sorting
  import Ordering

  datatype Option<T> = None | Some(value: T)

  // ---------------------------------------------------------------- what is needed

  datatype Model = Model(id: string, revision: string)

  datatype Recipe = Recipe(id: string, artifactKey: string, model: Model, dependencies: seq<Model>)

  /** `obligations`: claimed resources that still require cleanup. */
  datatype Operation = Operation(id: string, phase: string, recipe: Recipe, obligations: nat)

  predicate NeedsRetention(o: Operation)
  {
    if o.phase == "stopped" || o.phase == "failed" || o.phase == "aborted" then o.obligations > 0 else true
  }

  /** The key under which a model is protected: id, NUL, revision. */
  function Encode(m: Model): string
  {
    m.id + "\0" + m.revision
  }

  datatype References = References(recipeIDs: set<string>, artifactKeys: set<string>, models: set<string>, operations: set<string>)

  function Protect(refs: References, r: Recipe): References
  {
    if r.id == "" then refs
    else refs.(recipeIDs := refs.recipeIDs + {r.id}, artifactKeys := refs.artifactKeys + {r.artifactKey},
               models := refs.models + {Encode(r.model)} + set d | d in r.dependencies :: Encode(d))
  }

  /** A stored recipe or a retained operation depends on this model revision. */
  ghost predicate Needed(recipes: seq<Recipe>, operations: seq<Operation>, m: Model)
  {
    || (exists k :: 0 <= k < |recipes| && Uses(recipes[k], m))
    || (exists k :: 0 <= k < |operations| && NeedsRetention(operations[k]) && Uses(operations[k].recipe, m))
  }

  predicate Uses(r: Recipe, m: Model)
  {
    r.id != "" && (m == r.model || m in r.dependencies)
  }

  /** The stored recipes, then the retained operations. */
  function RefsOf(recipes: seq<Recipe>, operations: seq<Operation>): References
  {
    if operations != [] then
      var last := operations[|operations| - 1];
      var earlier := RefsOf(recipes, operations[..|operations| - 1]);
      if NeedsRetention(last) then Protect(earlier, last.recipe).(operations := earlier.operations + {last.id}) else earlier
    else if recipes != [] then Protect(RefsOf(recipes[..|recipes| - 1], []), recipes[|recipes| - 1])
    else References({}, {}, {}, {})
  }

  method ReferenceSet(recipes: seq<Recipe>, operations: seq<Operation>) returns (refs: References)
    ensures refs == RefsOf(recipes, operations)
    ensures forall m :: Needed(recipes, operations, m) ==> Encode(m) in refs.models
    ensures forall code :: code in refs.models ==> exists m :: Needed(recipes, operations, m) && Encode(m) == code
    ensures forall k :: 0 <= k < |recipes| && recipes[k].id != "" ==> recipes[k].artifactKey in refs.artifactKeys
    ensures refs.operations == set k | 0 <= k < |operations| && NeedsRetention(operations[k]) :: operations[k].id
  {
    refs := References({}, {}, {}, {});
    for i := 0 to |recipes|
      invariant refs == RefsOf(recipes[..i], [])
    {
      assert recipes[..i + 1][..i] == recipes[..i];
      refs := Protect(refs, recipes[i]);
    }
    assert recipes[..|recipes|] == recipes;
    for i := 0 to |operations|
      invariant refs == RefsOf(recipes, operations[..i])
    {
      assert operations[..i + 1][..i] == operations[..i];
      if NeedsRetention(operations[i]) {
        refs := Protect(refs, operations[i].recipe);
        refs := refs.(operations := refs.operations + {operations[i].id});
      }
    }
    assert operations[..|operations|] == operations;
    RefsCover(recipes, operations);
  }

  /** The references protect what is needed, and nothing else. */
  lemma {:induction false} RefsCover(recipes: seq<Recipe>, operations: seq<Operation>)
    ensures var refs := RefsOf(recipes, operations);
            && (forall m :: Needed(recipes, operations, m) ==> Encode(m) in refs.models)
            && (forall code :: code in refs.models ==> exists m :: Needed(recipes, operations, m) && Encode(m) == code)
            && (forall k :: 0 <= k < |recipes| && recipes[k].id != "" ==> recipes[k].artifactKey in refs.artifactKeys)
            && refs.operations == (set k | 0 <= k < |operations| && NeedsRetention(operations[k]) :: operations[k].id)
    decreases |operations|, |recipes|
  {
    if operations != [] {
      var most, last := operations[..|operations| - 1], operations[|operations| - 1];
      RefsCover(recipes, most);
      ProtectCovers(RefsOf(recipes, most), last.recipe);
      forall m ensures Needed(recipes, operations, m) <==> Needed(recipes, most, m) || (NeedsRetention(last) && Uses(last.recipe, m)) {
        assert operations == most + [last];
      }
    } else if recipes != [] {
      var most, last := recipes[..|recipes| - 1], recipes[|recipes| - 1];
      RefsCover(most, []);
      ProtectCovers(RefsOf(most, []), last);
      forall m ensures Needed(recipes, [], m) <==> Needed(most, [], m) || Uses(last, m) {
        assert recipes == most + [last];
      }
    }
  }

  lemma ProtectCovers(refs: References, r: Recipe)
    ensures refs.models <= Protect(refs, r).models && refs.artifactKeys <= Protect(refs, r).artifactKeys
    ensures forall m :: Uses(r, m) ==> Encode(m) in Protect(refs, r).models
    ensures forall code :: code in Protect(refs, r).models ==> code in refs.models || exists m :: Uses(r, m) && Encode(m) == code
  {
    forall code | code in Protect(refs, r).models ensures code in refs.models || exists m :: Uses(r, m) && Encode(m) == code {
      if code !in refs.models {
        if code == Encode(r.model) { assert Uses(r, r.model); }
        else {
          var d :| d in r.dependencies && Encode(d) == code;
          assert Uses(r, d);
        }
      }
    }
  }

  // ---------------------------------------------------------------- the cache

  /** A link to a blob, to an entry of a snapshot, or to what stays. */
  datatype Link = ToBlob(name: string) | ToEntry(revision: string, path: string) | Elsewhere

  /** A blob has an age stamp, and may itself be a link. */
  datatype Blob = Data(updated: int) | Linked(updated: int, to: Link)

  /** One repository directory: its snapshots by revision, its blobs by name, and what its
      refs files say. */
  datatype Repo = Repo(snapshots: map<string, map<string, Link>>, blobs: map<string, Blob>, refs: map<string, string>)

  /** A completion marker; `manifest` is None when it does not load. */
  datatype Marker = Marker(manifest: Option<Model>, updated: int)

  datatype Candidate = InvalidManifest(key: string) | Revision(key: string, repo: string, revision: string)

  predicate HasSuffix(s: string, t: string)
  {
    |t| <= |s| && s[|s| - |t|..] == t
  }

  function Dashes(id: string): string
  {
    if id == "" then "" else (if id[0] == '/' then "--" else [id[0]]) + Dashes(id[1..])
  }

  predicate Unsafe(id: string)
  {
    id != "" && (id[0] == '\\' || id[0] == '\0' || id[0] == '\r' || id[0] == '\n' || Unsafe(id[1..]))
  }

  /** Some part of the id between slashes is empty, "." or ".."; `part` is the part read so far. */
  predicate Hidden(id: string, part: string)
  {
    if id == "" then part == "" || part == "." || part == ".."
    else if id[0] == '/' then part == "" || part == "." || part == ".." || Hidden(id[1..], "")
    else Hidden(id[1..], part + [id[0]])
  }

  /** The directory of a model id that has no surrounding white space. */
  function CacheName(id: string): Option<string>
  {
    if id == "" || Unsafe(id) || Hidden(id, "") then None else Some("models--" + Dashes(id))
  }

  predicate Present(r: Repo, link: Link)
  {
    match link
    case ToBlob(b) => b in r.blobs
    case ToEntry(v, p) => v in r.snapshots && p in r.snapshots[v]
    case Elsewhere => true
  }

  /** Where a link that is there goes on, if it does. */
  function Further(r: Repo, link: Link): Option<Link>
    requires Present(r, link)
  {
    match link
    case ToBlob(b) => if r.blobs[b].Linked? then Some(r.blobs[b].to) else None
    case ToEntry(v, p) => Some(r.snapshots[v][p])
    case Elsewhere => None
  }

  /** So many links are followed, and no more. */
  const LINKS := 255

  /** Where a link ends. */
  function End(r: Repo, link: Link, n: nat): Option<Link>
    decreases n
  {
    if !Present(r, link) then None
    else if Further(r, link).None? then Some(link)
    else if n == 0 then None
    else End(r, Further(r, link).value, n - 1)
  }

  /** What a link passes on its way, its end included. */
  function Steps(r: Repo, link: Link, n: nat): set<Link>
    decreases n
  {
    {link} + if Present(r, link) && Further(r, link).Some? && n > 0 then Steps(r, Further(r, link).value, n - 1) else {}
  }

  predicate Referenced(r: Repo, blob: string)
  {
    exists s, p :: s in r.snapshots && p in r.snapshots[s] && End(r, r.snapshots[s][p], LINKS) == Some(ToBlob(blob))
  }

  predicate KeepsBlob(r: Repo, blob: string, cutoff: int)
    requires blob in r.blobs
  {
    Referenced(r, blob) || HasSuffix(blob, ".incomplete") || r.blobs[blob].updated > cutoff
  }

  function Pruned(r: Repo, cutoff: int): Repo
  {
    r.(blobs := map b | b in r.blobs && KeepsBlob(r, b, cutoff) :: r.blobs[b])
  }

  /** The prune cannot remove this blob. */
  predicate StopsAt(r: Repo, cutoff: int, works: string -> bool, blob: string)
  {
    blob in r.blobs && !KeepsBlob(r, blob, cutoff) && !works(blob)
  }

  /** The prune goes through the blobs in the order of their names, and ends at the first that
      it cannot remove. */
  ghost predicate Reaches(r: Repo, cutoff: int, works: string -> bool, blob: string)
  {
    forall b :: StopsAt(r, cutoff, works, b) ==> Ordering.Less(blob, b)
  }

  ghost function PrunedUntil(r: Repo, cutoff: int, works: string -> bool): Repo
  {
    r.(blobs := map b | b in r.blobs && (KeepsBlob(r, b, cutoff) || !Reaches(r, cutoff, works, b)) :: r.blobs[b])
  }

  /** A prune that was cut short: some of the prunable blobs are gone. */
  ghost predicate PartlyPruned(r: Repo, t: Repo, cutoff: int)
  {
    && t.snapshots == r.snapshots && t.refs == r.refs
    && (forall b :: b in t.blobs ==> b in r.blobs && t.blobs[b] == r.blobs[b])
    && (forall b :: b in r.blobs && KeepsBlob(r, b, cutoff) ==> b in t.blobs)
  }

  predicate Resolves(r: Repo, link: Link)
  {
    End(r, link, LINKS).Some?
  }

  /** The link leads nowhere on. */
  predicate Direct(r: Repo, link: Link)
  {
    link.Elsewhere? || (link.ToBlob? && (link.name in r.blobs ==> r.blobs[link.name].Data?))
  }

  /** Something is gone, and nothing else has changed. */
  ghost predicate Shrunk(r: Repo, t: Repo)
  {
    && (forall b :: b in t.blobs ==> b in r.blobs && t.blobs[b] == r.blobs[b])
    && (forall v, p :: v in t.snapshots && p in t.snapshots[v] ==> v in r.snapshots && p in r.snapshots[v] && t.snapshots[v][p] == r.snapshots[v][p])
  }

  /** A link then still resolves, and as before, exactly when all it passes is there. */
  lemma {:induction false} ShrunkResolvesExactly(r: Repo, t: Repo, link: Link, n: nat)
    requires Shrunk(r, t) && End(r, link, n).Some?
    ensures End(t, link, n).Some? <==> forall x :: x in Steps(r, link, n) ==> Present(t, x)
    ensures End(t, link, n).Some? ==> End(t, link, n) == End(r, link, n)
    decreases n
  {
    assert link in Steps(r, link, n);
    if Further(r, link).Some? {
      var next := Further(r, link).value;
      ShrunkResolvesExactly(r, t, next, n - 1);
      assert Steps(r, link, n) == {link} + Steps(r, next, n - 1);
      if Present(t, link) { assert Further(t, link) == Further(r, link); }
    } else {
      assert Steps(r, link, n) == {link};
    }
  }

  /** A link that resolves when something is gone did so before. */
  lemma {:induction false} ResolvedBefore(r: Repo, t: Repo, link: Link, n: nat)
    requires Shrunk(r, t) && End(t, link, n).Some?
    ensures End(r, link, n) == End(t, link, n)
    decreases n
  {
    if Further(t, link).Some? {
      ResolvedBefore(r, t, Further(t, link).value, n - 1);
    }
  }

  /** So what is kept now would have been kept then. */
  lemma KeptBefore(r: Repo, t: Repo, blob: string, cutoff: int)
    requires Shrunk(r, t) && blob in t.blobs && KeepsBlob(t, blob, cutoff)
    ensures KeepsBlob(r, blob, cutoff)
  {
    if Referenced(t, blob) {
      var v, p :| v in t.snapshots && p in t.snapshots[v] && End(t, t.snapshots[v][p], LINKS) == Some(ToBlob(blob));
      ResolvedBefore(r, t, t.snapshots[v][p], LINKS);
      assert r.snapshots[v][p] == t.snapshots[v][p];
    }
  }

  /** No blob is a link. */
  predicate DataOnly(r: Repo)
  {
    forall b :: b in r.blobs ==> r.blobs[b].Data?
  }

  /** Without links among the blobs, what is kept does not depend on the other blobs. */
  lemma KeptWithoutOthers(r: Repo, t: Repo, blob: string, cutoff: int)
    requires Shrunk(r, t) && t.snapshots == r.snapshots && DataOnly(r) && blob in t.blobs && KeepsBlob(r, blob, cutoff)
    ensures KeepsBlob(t, blob, cutoff)
  {
    if Referenced(r, blob) {
      var v, p :| v in r.snapshots && p in r.snapshots[v] && End(r, r.snapshots[v][p], LINKS) == Some(ToBlob(blob));
      var link := r.snapshots[v][p];
      forall x | x in Steps(r, link, LINKS) ensures Present(t, x) {
        OthersGoOn(r, link, LINKS, x);
      }
      ShrunkResolvesExactly(r, t, link, LINKS);
      assert t.snapshots[v][p] == link;
    }
  }

  /** A link ends at the blob, and all it passes is still there. */
  ghost predicate KeptByWhole(r: Repo, t: Repo, blob: string)
  {
    exists v, p :: v in r.snapshots && p in r.snapshots[v] && End(r, r.snapshots[v][p], LINKS) == Some(ToBlob(blob))
                   && forall x :: x in Steps(r, r.snapshots[v][p], LINKS) ==> Present(t, x)
  }

  /** Pruning twice takes no more than pruning once exactly when every old blob that a link
      keeps is kept by a link all of whose way is kept. */
  lemma PruneTwiceExactly(r: Repo, cutoff: int)
    ensures var t := Pruned(r, cutoff);
            Pruned(t, cutoff) == t <==>
            forall b :: b in t.blobs ==> HasSuffix(b, ".incomplete") || r.blobs[b].updated > cutoff || KeptByWhole(r, t, b)
  {
    var t := Pruned(r, cutoff);
    forall v, p | v in r.snapshots && p in r.snapshots[v]
      ensures End(r, r.snapshots[v][p], LINKS).Some? && (forall x :: x in Steps(r, r.snapshots[v][p], LINKS) ==> Present(t, x))
              ==> End(t, t.snapshots[v][p], LINKS) == End(r, r.snapshots[v][p], LINKS)
    {
      if End(r, r.snapshots[v][p], LINKS).Some? { ShrunkResolvesExactly(r, t, r.snapshots[v][p], LINKS); }
    }
    forall b | b in t.blobs && Referenced(t, b)
      ensures KeptByWhole(r, t, b)
    {
      var v, p :| v in t.snapshots && p in t.snapshots[v] && End(t, t.snapshots[v][p], LINKS) == Some(ToBlob(b));
      ResolvedBefore(r, t, r.snapshots[v][p], LINKS);
      ShrunkResolvesExactly(r, t, r.snapshots[v][p], LINKS);
    }
    assert Pruned(t, cutoff) == t <==> forall b :: b in t.blobs ==> KeepsBlob(t, b, cutoff) by {
      if forall b :: b in t.blobs ==> KeepsBlob(t, b, cutoff) { assert Pruned(t, cutoff).blobs == t.blobs; }
      if Pruned(t, cutoff) == t { assert forall b :: b in t.blobs ==> b in Pruned(t, cutoff).blobs; }
    }
  }

  /** Of the steps of a link, only the end leads nowhere on. */
  lemma {:induction false} OthersGoOn(r: Repo, link: Link, n: nat, x: Link)
    requires End(r, link, n).Some? && x in Steps(r, link, n)
    ensures Present(r, x) && (Further(r, x).None? ==> x == End(r, link, n).value)
    decreases n
  {
    if Further(r, link).Some? && x != link { OthersGoOn(r, Further(r, link).value, n - 1, x); }
  }

  /** A prune, even one that stops halfway, breaks a link of a snapshot exactly when a blob
      is gone that is itself a link and that this one passes. */
  lemma PruneBreaksExactly(r: Repo, t: Repo, cutoff: int, revision: string, path: string)
    requires PartlyPruned(r, t, cutoff)
    requires revision in r.snapshots && path in r.snapshots[revision] && Resolves(r, r.snapshots[revision][path])
    ensures !Resolves(t, r.snapshots[revision][path]) <==>
              exists b :: ToBlob(b) in Steps(r, r.snapshots[revision][path], LINKS) && b !in t.blobs && b in r.blobs && r.blobs[b].Linked?
  {
    var link := r.snapshots[revision][path];
    ShrunkResolvesExactly(r, t, link, LINKS);
    forall x | x in Steps(r, link, LINKS) && !Present(t, x) ensures x.ToBlob? && x.name in r.blobs && r.blobs[x.name].Linked? {
      OthersGoOn(r, link, LINKS, x);
      if x.ToBlob? && r.blobs[x.name].Data? { assert Referenced(r, x.name); }
    }
  }

  /** So it breaks no link that leads straight to its blob. */
  lemma PruneKeepsLinks(r: Repo, t: Repo, cutoff: int, revision: string, path: string)
    requires PartlyPruned(r, t, cutoff)
    requires revision in r.snapshots && path in r.snapshots[revision] && Resolves(r, r.snapshots[revision][path])
    requires Direct(r, r.snapshots[revision][path])
    ensures revision in t.snapshots && path in t.snapshots[revision] && Resolves(t, t.snapshots[revision][path])
  {
    var link := r.snapshots[revision][path];
    PruneBreaksExactly(r, t, cutoff, revision, path);
    assert Steps(r, link, LINKS) == {link};
  }

  /** A blob that is a link is pruned, for it is no link's end, and the file behind it stays. */
  lemma LinkedBlobExample()
    ensures var r := Repo(map["v" := map["weights" := ToBlob("a")]], map["a" := Linked(0, ToBlob("b")), "b" := Data(0)], map[]);
            Resolves(r, ToBlob("a")) && !Resolves(Pruned(r, 0), ToBlob("a")) && Resolves(Pruned(r, 0), ToBlob("b"))
  {
    var r := Repo(map["v" := map["weights" := ToBlob("a")]], map["a" := Linked(0, ToBlob("b")), "b" := Data(0)], map[]);
    assert End(r, ToBlob("b"), LINKS - 1) == Some(ToBlob("b"));
    assert End(r, r.snapshots["v"]["weights"], LINKS) == Some(ToBlob("b"));
    assert Referenced(r, "b") && !Referenced(r, "a");
    assert !HasSuffix("a", ".incomplete");
  }

  datatype Cache = Cache(repos: map<string, Repo>, markers: map<string, Marker>)

  predicate RevisionReferenced(s: Cache, repo: string, revision: string)
  {
    repo in s.repos && exists f :: f in s.repos[repo].refs && s.repos[repo].refs[f] == revision
  }

  /** The marker's revision may go: old enough, unprotected, and no refs entry names it. */
  predicate Obsolete(s: Cache, refs: References, cutoff: int, key: string)
  {
    && key in s.markers && key !in refs.artifactKeys && s.markers[key].updated <= cutoff
    && s.markers[key].manifest.Some?
    && var m := s.markers[key].manifest.value;
       Encode(m) !in refs.models && CacheName(m.id).Some? && !RevisionReferenced(s, CacheName(m.id).value, m.revision)
  }

  function RevisionOf(key: string, m: Model): Candidate
    requires CacheName(m.id).Some?
  {
    Revision(key, CacheName(m.id).value, m.revision)
  }

  ghost predicate Justified(s: Cache, refs: References, cutoff: int, c: Candidate)
  {
    match c
    case InvalidManifest(key) =>
      key in s.markers && key !in refs.artifactKeys && s.markers[key].updated <= cutoff && s.markers[key].manifest.None?
    case Revision(key, _, _) => Obsolete(s, refs, cutoff, key) && c == RevisionOf(key, s.markers[key].manifest.value)
  }

  /** Where a candidate is, below the root of the cache. */
  function PathOf(c: Candidate): string
  {
    match c
    case InvalidManifest(key) => ".cloudless-complete/" + key + ".json"
    case Revision(_, repo, revision) => "hub/" + repo + "/snapshots/" + revision
  }

  function Age(s: Cache, c: Candidate): int
  {
    if c.key in s.markers then s.markers[c.key].updated else 0
  }

  /** The oldest first, then by path. */
  function Sooner(s: Cache): (Candidate, Candidate) -> bool
  {
    (a: Candidate, b: Candidate) => Age(s, a) < Age(s, b) || (Age(s, a) == Age(s, b) && Ordering.Less(PathOf(a), PathOf(b)))
  }

  lemma SoonerOrders(s: Cache)
    ensures Orders(Sooner(s))
  {
    var less := Sooner(s);
    forall a ensures !less(a, a) { Ordering.LessIrreflexive(PathOf(a)); }
    forall a, b, c | less(a, b) && less(b, c) ensures less(a, c) {
      if Age(s, a) == Age(s, c) { Ordering.LessTransitive(PathOf(a), PathOf(b), PathOf(c)); }
    }
    forall a, b, c | less(a, c) ensures less(a, b) || less(b, c) {
      Ordering.LessTotal(PathOf(a), PathOf(b));
      Ordering.LessTotal(PathOf(b), PathOf(c));
    }
  }

  /** Removing a candidate may stop anywhere: the snapshot partly removed, the marker
      still there, the blobs partly pruned. */
  ghost predicate RemovalStep(s: Cache, c: Candidate, cutoff: int, t: Cache)
  {
    && (t.markers == s.markers || t.markers == s.markers - {c.key})
    && (if c.InvalidManifest? || c.repo !in s.repos then t.repos == s.repos
        else
          && t.repos.Keys == s.repos.Keys
          && (forall r :: r in s.repos && r != c.repo ==> t.repos[r] == s.repos[r])
          && exists left :: PartlyPruned(s.repos[c.repo].(snapshots := left), t.repos[c.repo], cutoff)
               && RevisionCut(s.repos[c.repo].snapshots, left, c.revision))
  }

  /** Only this revision's snapshot has lost entries, perhaps all of them. */
  ghost predicate RevisionCut(before: map<string, map<string, Link>>, left: map<string, map<string, Link>>, revision: string)
  {
    && (forall v :: v in left ==> v in before && forall p :: p in left[v] ==> p in before[v] && left[v][p] == before[v][p])
    && (forall v :: v in before && v != revision ==> v in left && left[v] == before[v])
  }

  predicate StraightIn(r: Repo, link: Link)
  {
    Direct(r, link) && Resolves(r, link)
  }

  /** Snapshots only shrink, and a surviving link that resolved straight still does. */
  ghost predicate LinksKept(s: Cache, t: Cache)
  {
    t.repos.Keys == s.repos.Keys &&
    forall r, v, p :: r in t.repos && v in t.repos[r].snapshots && p in t.repos[r].snapshots[v] ==>
      && v in s.repos[r].snapshots && p in s.repos[r].snapshots[v]
      && t.repos[r].snapshots[v][p] == s.repos[r].snapshots[v][p]
      && (StraightIn(s.repos[r], s.repos[r].snapshots[v][p]) ==> StraightIn(t.repos[r], s.repos[r].snapshots[v][p]))
  }

  ghost predicate Spared(s: Cache, t: Cache, repo: string, revision: string)
  {
    repo in s.repos && revision in s.repos[repo].snapshots ==>
      repo in t.repos && revision in t.repos[repo].snapshots && t.repos[repo].snapshots[revision] == s.repos[repo].snapshots[revision]
  }

  predicate Names(c: Candidate, repo: string, revision: string)
  {
    c.Revision? && c.repo == repo && c.revision == revision
  }

  predicate NamedBySome(candidates: seq<Candidate>, repo: string, revision: string)
  {
    exists k :: 0 <= k < |candidates| && Names(candidates[k], repo, revision)
  }

  predicate HasSnapshot(s: Cache, repo: string, revision: string)
  {
    repo in s.repos && revision in s.repos[repo].snapshots
  }

  lemma RemovalIsLocal(s: Cache, c: Candidate, cutoff: int, t: Cache)
    requires RemovalStep(s, c, cutoff, t)
    ensures LinksKept(s, t)
    ensures forall repo, v :: !Names(c, repo, v) ==> Spared(s, t, repo, v)
    ensures forall repo, v :: HasSnapshot(t, repo, v) ==> HasSnapshot(s, repo, v)
  {
    if c.Revision? && c.repo in s.repos {
      var left :| PartlyPruned(s.repos[c.repo].(snapshots := left), t.repos[c.repo], cutoff)
               && RevisionCut(s.repos[c.repo].snapshots, left, c.revision);
      var middle := s.repos[c.repo].(snapshots := left);
      forall v, p | v in left && p in left[v] && StraightIn(s.repos[c.repo], left[v][p]) ensures StraightIn(t.repos[c.repo], left[v][p]) {
        assert StraightIn(middle, left[v][p]);
        PruneKeepsLinks(middle, t.repos[c.repo], cutoff, v, p);
      }
    }
  }

  lemma LinksKeptTransitive(s: Cache, t: Cache, u: Cache)
    requires LinksKept(s, t) && LinksKept(t, u)
    ensures LinksKept(s, u)
  {
    forall r, v, p | r in u.repos && v in u.repos[r].snapshots && p in u.repos[r].snapshots[v]
      ensures v in s.repos[r].snapshots && p in s.repos[r].snapshots[v]
           && u.repos[r].snapshots[v][p] == s.repos[r].snapshots[v][p]
           && (StraightIn(s.repos[r], s.repos[r].snapshots[v][p]) ==> StraightIn(u.repos[r], s.repos[r].snapshots[v][p]))
    {
      assert v in t.repos[r].snapshots && p in t.repos[r].snapshots[v];
    }
  }

  /** Removing any prefix of justified candidates, each as far as it gets, spares every
      snapshot that no candidate names and breaks no surviving link. */
  lemma {:induction false} PrefixIsSafe(trace: seq<Cache>, candidates: seq<Candidate>, cutoff: int)
    requires 1 <= |trace| <= |candidates| + 1
    requires forall k :: 0 <= k < |trace| - 1 ==> RemovalStep(trace[k], candidates[k], cutoff, trace[k + 1])
    ensures LinksKept(trace[0], trace[|trace| - 1])
    ensures forall repo, v :: !NamedBySome(candidates, repo, v) ==> Spared(trace[0], trace[|trace| - 1], repo, v)
    decreases |trace|
  {
    if |trace| > 1 {
      var n := |trace| - 2;
      PrefixIsSafe(trace[..n + 1], candidates, cutoff);
      RemovalIsLocal(trace[n], candidates[n], cutoff, trace[n + 1]);
      LinksKeptTransitive(trace[0], trace[n], trace[n + 1]);
      forall repo, v | !NamedBySome(candidates, repo, v) ensures Spared(trace[0], trace[n + 1], repo, v) {
        assert !Names(candidates[n], repo, v);
      }
    }
  }

  /** An obsolete marker of another model id has this one's directory and revision. */
  predicate Shadows(s: Cache, refs: References, cutoff: int, key: string, m: Model)
  {
    && Obsolete(s, refs, cutoff, key)
    && var other := s.markers[key].manifest.value;
       other.id != m.id && other.revision == m.revision && CacheName(other.id) == CacheName(m.id)
  }

  /** A protected revision's directory is named by a candidate exactly when an obsolete
      marker belongs to another model id with the same cache directory. */
  lemma ThreatExact(s: Cache, refs: References, cutoff: int, candidates: seq<Candidate>, m: Model)
    requires forall c :: c in candidates ==> Justified(s, refs, cutoff, c)
    requires forall key :: Obsolete(s, refs, cutoff, key) ==> RevisionOf(key, s.markers[key].manifest.value) in candidates
    requires CacheName(m.id).Some? && Encode(m) in refs.models
    ensures (exists c :: c in candidates && Names(c, CacheName(m.id).value, m.revision)) <==>
            (exists key :: Shadows(s, refs, cutoff, key, m))
  {
    if c :| c in candidates && Names(c, CacheName(m.id).value, m.revision) {
      assert Obsolete(s, refs, cutoff, c.key);
      assert s.markers[c.key].manifest.value != m;
      assert Shadows(s, refs, cutoff, c.key, m);
    }
    if key :| Shadows(s, refs, cutoff, key, m) {
      assert RevisionOf(key, s.markers[key].manifest.value) in candidates;
    }
  }

  /** A recipe needs "a/b", an old download of "a--b" has a marker for the same revision, and
      both names lead to one directory: the collector's candidate is the needed snapshot. */
  lemma SharedDirectoryExample()
    ensures var needed, other := Model("a/b", "v"), Model("a--b", "v");
            var recipes := [Recipe("recipe", "artifact", needed, [])];
            && CacheName("a/b").Some? && CacheName("a/b") == CacheName("a--b")
            && var dir := CacheName("a/b").value;
               var s := Cache(map[dir := Repo(map["v" := map["weights" := ToBlob("blob")]], map["blob" := Data(0)], map[])],
                              map["old" := Marker(Some(other), 0)]);
               var t := Cache(map[dir := Repo(map[], map[], map[])], map[]);
               && Needed(recipes, [], needed) && Shadows(s, RefsOf(recipes, []), 0, "old", needed)
               && RemovalStep(s, RevisionOf("old", other), 0, t) && HasSnapshot(s, dir, "v") && !HasSnapshot(t, dir, "v")
  {
    SharedName();
    var needed, other := Model("a/b", "v"), Model("a--b", "v");
    var recipes := [Recipe("recipe", "artifact", needed, [])];
    var dir := CacheName("a/b").value;
    var r := Repo(map["v" := map["weights" := ToBlob("blob")]], map["blob" := Data(0)], map[]);
    var u := Repo(map[], map[], map[]);
    var s, t := Cache(map[dir := r], map["old" := Marker(Some(other), 0)]), Cache(map[dir := u], map[]);
    assert Needed(recipes, [], needed) by { assert Uses(recipes[0], needed); }
    assert Encode(needed)[1] == '/' && Encode(other)[1] == '-';
    assert recipes[..0] == [];
    assert RefsOf(recipes, []) == Protect(RefsOf([], []), recipes[0]);
    assert RefsOf(recipes, []).models == {Encode(needed)} && "old" !in RefsOf(recipes, []).artifactKeys;
    assert Obsolete(s, RefsOf(recipes, []), 0, "old");
    assert "blob"[|"blob"| - 1] == 'b' && ".incomplete"[|".incomplete"| - 1] == 'e';
    assert PartlyPruned(r.(snapshots := map[]), u, 0);
    assert RevisionCut(r.snapshots, map[], "v");
  }

  lemma SharedName()
    ensures CacheName("a/b").Some? && CacheName("a/b") == CacheName("a--b")
  {
    assert "a/b"[1..] == "/b" && "/b"[1..] == "b" && "b"[1..] == "";
    assert "a--b"[1..] == "--b" && "--b"[1..] == "-b" && "-b"[1..] == "b";
    assert Dashes("b") == "b" && Dashes("/b") == "--b" == Dashes("--b") by { assert Dashes("-b") == "-b"; }
    assert !Unsafe("b") && !Unsafe("/b") && !Unsafe("-b") && !Unsafe("--b");
    SharedExampleParts();
  }

  lemma SharedExampleParts()
    ensures !Hidden("a/b", "") && !Hidden("a--b", "")
  {
    assert "a/b"[1..] == "/b" && "/b"[1..] == "b" && "b"[1..] == "";
    assert "a--b"[1..] == "--b" && "--b"[1..] == "-b" && "-b"[1..] == "b";
    assert "" + ['a'] == "a" && "" + ['b'] == "b" && "a" + ['-'] == "a-" && "a-" + ['-'] == "a--" && "a--" + ['b'] == "a--b";
    assert !Hidden("b", "") && !Hidden("/b", "a");
    assert !Hidden("b", "a--") && !Hidden("-b", "a-") && !Hidden("--b", "a");
  }

  // ---------------------------------------------------------------- the collector

  /** How far one removal gets: entries that stay when the snapshot cannot be cleared,
      whether the marker goes, and which blobs can be removed. */
  datatype Removal = Removal(cleared: bool, left: string -> bool, unmarked: bool, works: string -> bool)

  /** What is left of the snapshots. */
  function Remaining(snapshots: map<string, map<string, Link>>, revision: string, a: Removal): map<string, map<string, Link>>
  {
    if a.cleared then snapshots - {revision}
    else if revision !in snapshots then snapshots
    else snapshots[revision := map p | p in snapshots[revision] && a.left(p) :: snapshots[revision][p]]
  }

  function Cut(s: Cache, c: Candidate, a: Removal): Cache
    requires c.Revision?
  {
    if c.repo !in s.repos then s
    else s.(repos := s.repos[c.repo := s.repos[c.repo].(snapshots := Remaining(s.repos[c.repo].snapshots, c.revision, a))])
  }

  /** What a removal leaves: snapshot, then marker, then blobs, until one cannot be removed. */
  ghost function After(s: Cache, c: Candidate, cutoff: int, a: Removal): Cache
  {
    match c
    case InvalidManifest(key) => if a.unmarked then s.(markers := s.markers - {key}) else s
    case Revision(key, repo, _) =>
      var t := Cut(s, c, a);
      if !a.cleared || !a.unmarked then t
      else Cache(if repo in t.repos then t.repos[repo := PrunedUntil(t.repos[repo], cutoff, a.works)] else t.repos, t.markers - {key})
  }

  ghost predicate Succeeds(s: Cache, c: Candidate, cutoff: int, a: Removal)
  {
    && a.unmarked
    && (c.Revision? ==> a.cleared && (c.repo in s.repos ==>
          forall b :: b in s.repos[c.repo].blobs && !KeepsBlob(Cut(s, c, a).repos[c.repo], b, cutoff) ==> a.works(b)))
  }

  lemma AfterIsStep(s: Cache, c: Candidate, cutoff: int, a: Removal)
    ensures RemovalStep(s, c, cutoff, After(s, c, cutoff, a))
    ensures c.Revision? && a.cleared ==> !HasSnapshot(After(s, c, cutoff, a), c.repo, c.revision)
  {
    if c.Revision? && c.repo in s.repos {
      var left := Remaining(s.repos[c.repo].snapshots, c.revision, a);
      assert RevisionCut(s.repos[c.repo].snapshots, left, c.revision);
      assert PartlyPruned(s.repos[c.repo].(snapshots := left), After(s, c, cutoff, a).repos[c.repo], cutoff);
    }
  }

  /** Everything a removal tries works. */
  ghost predicate Works(a: Removal)
  {
    a.cleared && a.unmarked && forall b :: a.works(b)
  }

  /** A removal that works takes the marker and the snapshot, and of the repository's blobs
      keeps those that a link of another snapshot ends at, that are incomplete, or that are
      young. */
  lemma AfterWorks(s: Cache, c: Candidate, cutoff: int, a: Removal)
    requires Works(a)
    ensures var t := After(s, c, cutoff, a);
            && Succeeds(s, c, cutoff, a) && t.markers == s.markers - {c.key}
            && (if c.Revision? && c.repo in s.repos then
                  var middle := s.repos[c.repo].(snapshots := s.repos[c.repo].snapshots - {c.revision});
                  t.repos == s.repos[c.repo := Pruned(middle, cutoff)]
                else t.repos == s.repos)
  {
    if c.Revision? && c.repo in s.repos {
      var middle := s.repos[c.repo].(snapshots := s.repos[c.repo].snapshots - {c.revision});
      assert PrunedUntil(middle, cutoff, a.works).blobs == Pruned(middle, cutoff).blobs;
    }
  }

  /** A collection so far: what is left, what was reported as removed, and the free space last
      measured. */
  datatype Sweep = Sweep(cache: Cache, removed: seq<Candidate>, free: int)

  /** Space is measured after every removal that works. */
  ghost function Swept(start: Sweep, candidates: seq<Candidate>, cutoff: int, answer: nat -> Removal, measured: nat -> Option<int>): Sweep
  {
    if candidates == [] then start
    else
      var n := |candidates| - 1;
      var w := Swept(start, candidates[..n], cutoff, answer, measured);
      var after := After(w.cache, candidates[n], cutoff, answer(n));
      if Succeeds(w.cache, candidates[n], cutoff, answer(n))
      then Sweep(after, w.removed + [candidates[n]], if measured(n).Some? then measured(n).value else w.free)
      else w.(cache := after)
  }

  lemma SweptOneMore(start: Sweep, candidates: seq<Candidate>, n: nat, cutoff: int, answer: nat -> Removal, measured: nat -> Option<int>)
    requires n < |candidates|
    ensures var w := Swept(start, candidates[..n], cutoff, answer, measured);
            var after := After(w.cache, candidates[n], cutoff, answer(n));
            Swept(start, candidates[..n + 1], cutoff, answer, measured) ==
            if Succeeds(w.cache, candidates[n], cutoff, answer(n))
            then Sweep(after, w.removed + [candidates[n]], if measured(n).Some? then measured(n).value else w.free)
            else w.(cache := after)
  {
    assert candidates[..n + 1][..n] == candidates[..n];
  }

  ghost predicate AllWork(answer: nat -> Removal)
  {
    forall k: nat :: Works(answer(k))
  }

  predicate InRepo(candidates: seq<Candidate>, repo: string)
  {
    exists k :: 0 <= k < |candidates| && candidates[k].Revision? && candidates[k].repo == repo
  }

  /** A candidate has this marker. */
  predicate Marked(candidates: seq<Candidate>, key: string)
  {
    exists k :: 0 <= k < |candidates| && candidates[k].key == key
  }

  /** Which markers and snapshots are left. */
  ghost predicate Taken(s: Cache, candidates: seq<Candidate>, t: Cache)
  {
    && t.repos.Keys == s.repos.Keys
    && (forall key :: key in t.markers <==> key in s.markers && !Marked(candidates, key))
    && (forall key :: key in t.markers ==> t.markers[key] == s.markers[key])
    && (forall repo, v :: HasSnapshot(t, repo, v) <==> HasSnapshot(s, repo, v) && !NamedBySome(candidates, repo, v))
    && (forall repo, v :: HasSnapshot(t, repo, v) ==> t.repos[repo].snapshots[v] == s.repos[repo].snapshots[v])
  }

  /** And which blobs: in a repository that lost a revision none that could be pruned there
      with the snapshots of now, and, when no blob is a link, all the others. */
  ghost predicate Freed(s: Cache, candidates: seq<Candidate>, cutoff: int, t: Cache)
    requires t.repos.Keys == s.repos.Keys
  {
    forall repo :: repo in s.repos ==>
      if InRepo(candidates, repo) then FreedTo(s.repos[repo], cutoff, t.repos[repo]) else t.repos[repo] == s.repos[repo]
  }

  ghost predicate FreedTo(r: Repo, cutoff: int, t: Repo)
  {
    && Shrunk(r, t) && t.refs == r.refs
    && (forall b :: b in t.blobs ==> KeepsBlob(r.(snapshots := t.snapshots), b, cutoff))
    && (DataOnly(r) ==> t == Pruned(r.(snapshots := t.snapshots), cutoff))
  }

  lemma TakenOneMore(s: Cache, candidates: seq<Candidate>, n: nat, cutoff: int, t: Cache, a: Removal)
    requires n < |candidates| && Taken(s, candidates[..n], t) && Works(a)
    ensures Taken(s, candidates[..n + 1], After(t, candidates[n], cutoff, a))
  {
    AfterWorks(t, candidates[n], cutoff, a);
    TakenNext(s, candidates, n, t, After(t, candidates[n], cutoff, a));
  }

  lemma TakenNext(s: Cache, candidates: seq<Candidate>, n: nat, t: Cache, u: Cache)
    requires n < |candidates| && Taken(s, candidates[..n], t)
    requires u.repos.Keys == t.repos.Keys && u.markers == t.markers - {candidates[n].key}
    requires forall repo, v :: HasSnapshot(u, repo, v) <==> HasSnapshot(t, repo, v) && !Names(candidates[n], repo, v)
    requires forall repo, v :: HasSnapshot(u, repo, v) ==> u.repos[repo].snapshots[v] == t.repos[repo].snapshots[v]
    ensures Taken(s, candidates[..n + 1], u)
  {
    OneMoreNamed(candidates, n);
  }

  lemma OneMoreNamed(candidates: seq<Candidate>, n: nat)
    requires n < |candidates|
    ensures var most, more, c := candidates[..n], candidates[..n + 1], candidates[n];
            && (forall repo, v :: NamedBySome(more, repo, v) <==> NamedBySome(most, repo, v) || Names(c, repo, v))
            && (forall repo :: InRepo(more, repo) <==> InRepo(most, repo) || (c.Revision? && c.repo == repo))
            && (forall key :: Marked(more, key) <==> Marked(most, key) || c.key == key)
  {
    var most, more, c := candidates[..n], candidates[..n + 1], candidates[n];
    assert more[n] == c && forall k :: 0 <= k < n ==> more[k] == most[k];
    forall repo, v | NamedBySome(most, repo, v) ensures NamedBySome(more, repo, v) {
      var k :| 0 <= k < |most| && Names(most[k], repo, v);
      assert Names(more[k], repo, v);
    }
    forall repo | InRepo(most, repo) ensures InRepo(more, repo) {
      var k :| 0 <= k < |most| && most[k].Revision? && most[k].repo == repo;
      assert more[k] == most[k];
    }
    forall key | Marked(most, key) ensures Marked(more, key) {
      var k :| 0 <= k < |most| && most[k].key == key;
      assert more[k] == most[k];
    }
  }

  /** One more prune of a repository, in terms of the first state. */
  lemma PrunedAgain(r: Repo, t: Repo, v: string, cutoff: int)
    requires t == r || FreedTo(r, cutoff, t)
    ensures FreedTo(r, cutoff, Pruned(t.(snapshots := t.snapshots - {v}), cutoff))
  {
    var middle := t.(snapshots := t.snapshots - {v});
    var u := Pruned(middle, cutoff);
    var stripped := r.(snapshots := u.snapshots);
    assert Shrunk(stripped, middle);
    forall b | b in u.blobs ensures KeepsBlob(stripped, b, cutoff) {
      KeptBefore(stripped, middle, b, cutoff);
    }
    if DataOnly(r) {
      forall b | b in r.blobs && KeepsBlob(stripped, b, cutoff) ensures b in u.blobs {
        KeptBefore(r.(snapshots := t.snapshots), stripped, b, cutoff);
        assert b in t.blobs;
        KeptWithoutOthers(stripped, middle, b, cutoff);
      }
      assert u.blobs == Pruned(stripped, cutoff).blobs;
    }
  }

  lemma FreedOneMore(s: Cache, candidates: seq<Candidate>, n: nat, cutoff: int, t: Cache, a: Removal)
    requires n < |candidates| && t.repos.Keys == s.repos.Keys && Freed(s, candidates[..n], cutoff, t) && Works(a)
    ensures After(t, candidates[n], cutoff, a).repos.Keys == s.repos.Keys
    ensures Freed(s, candidates[..n + 1], cutoff, After(t, candidates[n], cutoff, a))
  {
    var c, most, more := candidates[n], candidates[..n], candidates[..n + 1];
    AfterWorks(t, c, cutoff, a);
    var u := After(t, c, cutoff, a);
    OneMoreNamed(candidates, n);
    if c.Revision? && c.repo in s.repos {
      PrunedAgain(s.repos[c.repo], t.repos[c.repo], c.revision, cutoff);
    }
  }

  /** Whatever works and whatever does not, a collection takes no revision but those its
      candidates name, and breaks no link that leads straight to its blob. */
  lemma SweepIsSafe(start: Sweep, candidates: seq<Candidate>, n: nat, cutoff: int, answer: nat -> Removal, measured: nat -> Option<int>)
    requires n <= |candidates|
    ensures var t := Swept(start, candidates[..n], cutoff, answer, measured).cache;
            && LinksKept(start.cache, t)
            && forall repo, v :: !NamedBySome(candidates, repo, v) ==> Spared(start.cache, t, repo, v)
  {
    var trace := seq(n + 1, k requires 0 <= k <= n => Swept(start, candidates[..k], cutoff, answer, measured).cache);
    forall k | 0 <= k < n ensures RemovalStep(trace[k], candidates[k], cutoff, trace[k + 1]) {
      SweptOneMore(start, candidates, k, cutoff, answer, measured);
      AfterIsStep(trace[k], candidates[k], cutoff, answer(k));
    }
    assert candidates[..0] == [];
    PrefixIsSafe(trace, candidates, cutoff);
  }

  /** Snapshots that can be cleared are gone. */
  lemma {:induction false} SweepClears(start: Sweep, candidates: seq<Candidate>, n: nat, cutoff: int, answer: nat -> Removal, measured: nat -> Option<int>)
    requires n <= |candidates| && forall k :: answer(k).cleared
    ensures forall k :: 0 <= k < n ==> Gone(Swept(start, candidates[..n], cutoff, answer, measured).cache, candidates[k])
  {
    if n > 0 {
      var t := Swept(start, candidates[..n - 1], cutoff, answer, measured).cache;
      SweepClears(start, candidates, n - 1, cutoff, answer, measured);
      SweptOneMore(start, candidates, n - 1, cutoff, answer, measured);
      AfterIsStep(t, candidates[n - 1], cutoff, answer(n - 1));
      RemovalIsLocal(t, candidates[n - 1], cutoff, After(t, candidates[n - 1], cutoff, answer(n - 1)));
    }
  }

  ghost predicate SweptClean(s: Cache, candidates: seq<Candidate>, cutoff: int, w: Sweep)
  {
    w.removed == candidates && Taken(s, candidates, w.cache) && Freed(s, candidates, cutoff, w.cache)
  }

  /** When every removal works, a collection reports every candidate as removed, takes exactly
      their markers and snapshots, and frees what only they kept. */
  lemma {:induction false} SweepFrees(s: Cache, candidates: seq<Candidate>, n: nat, cutoff: int, free: int, answer: nat -> Removal,
                                      measured: nat -> Option<int>)
    requires n <= |candidates| && AllWork(answer)
    ensures SweptClean(s, candidates[..n], cutoff, Swept(Sweep(s, [], free), candidates[..n], cutoff, answer, measured))
  {
    if n == 0 {
      assert candidates[..0] == [];
      NothingSwept(s, cutoff, free);
    } else {
      SweepFrees(s, candidates, n - 1, cutoff, free, answer, measured);
      SweptOneMore(Sweep(s, [], free), candidates, n - 1, cutoff, answer, measured);
      assert Works(answer(n - 1));
      SweptCleanNext(s, candidates, n - 1, cutoff, Swept(Sweep(s, [], free), candidates[..n - 1], cutoff, answer, measured), answer(n - 1),
                     Swept(Sweep(s, [], free), candidates[..n], cutoff, answer, measured));
    }
  }

  lemma NothingSwept(s: Cache, cutoff: int, free: int)
    ensures SweptClean(s, [], cutoff, Sweep(s, [], free))
  {
  }

  lemma SweptCleanNext(s: Cache, candidates: seq<Candidate>, n: nat, cutoff: int, w: Sweep, a: Removal, v: Sweep)
    requires n < |candidates| && SweptClean(s, candidates[..n], cutoff, w) && Works(a)
    requires v.cache == After(w.cache, candidates[n], cutoff, a)
    requires Succeeds(w.cache, candidates[n], cutoff, a) ==> v.removed == w.removed + [candidates[n]]
    ensures SweptClean(s, candidates[..n + 1], cutoff, v)
  {
    OneMoreWorks(s, candidates, n, cutoff, w.cache, a);
    assert candidates[..n] + [candidates[n]] == candidates[..n + 1];
  }

  lemma OneMoreWorks(s: Cache, candidates: seq<Candidate>, n: nat, cutoff: int, t: Cache, a: Removal)
    requires n < |candidates| && Taken(s, candidates[..n], t) && Freed(s, candidates[..n], cutoff, t) && Works(a)
    ensures Succeeds(t, candidates[n], cutoff, a)
    ensures var u := After(t, candidates[n], cutoff, a);
            Taken(s, candidates[..n + 1], u) && Freed(s, candidates[..n + 1], cutoff, u)
  {
    AfterWorks(t, candidates[n], cutoff, a);
    TakenOneMore(s, candidates, n, cutoff, t, a);
    FreedOneMore(s, candidates, n, cutoff, t, a);
  }

  /** No marker for another model id shares this revision's directory. */
  ghost predicate OwnDirectory(s: Cache, m: Model)
  {
    forall key :: key in s.markers && s.markers[key].manifest.Some? ==>
      var other := s.markers[key].manifest.value;
      CacheName(other.id) == CacheName(m.id) && other.revision == m.revision ==> other.id == m.id
  }

  lemma ProtectedIsUnnamed(s: Cache, refs: References, cutoff: int, candidates: seq<Candidate>, m: Model)
    requires forall c :: c in candidates ==> Justified(s, refs, cutoff, c)
    requires forall key :: Obsolete(s, refs, cutoff, key) ==> RevisionOf(key, s.markers[key].manifest.value) in candidates
    requires CacheName(m.id).Some? && Encode(m) in refs.models && OwnDirectory(s, m)
    ensures !NamedBySome(candidates, CacheName(m.id).value, m.revision)
  {
    ThreatExact(s, refs, cutoff, candidates, m);
    assert forall k :: 0 <= k < |candidates| ==> candidates[k] in candidates;
  }

  predicate Gone(s: Cache, c: Candidate)
  {
    c.Revision? ==> !HasSnapshot(s, c.repo, c.revision)
  }

  /** When every candidate went, a protected snapshot is lost exactly if it was shadowed. */
  lemma LostExactly(s: Cache, t: Cache, refs: References, cutoff: int, candidates: seq<Candidate>, m: Model)
    requires forall c :: c in candidates ==> Justified(s, refs, cutoff, c)
    requires forall key :: Obsolete(s, refs, cutoff, key) ==> RevisionOf(key, s.markers[key].manifest.value) in candidates
    requires CacheName(m.id).Some? && Encode(m) in refs.models && HasSnapshot(s, CacheName(m.id).value, m.revision)
    requires forall k :: 0 <= k < |candidates| ==> Gone(t, candidates[k])
    requires forall repo, v :: !NamedBySome(candidates, repo, v) ==> Spared(s, t, repo, v)
    ensures !HasSnapshot(t, CacheName(m.id).value, m.revision) <==> exists key :: Shadows(s, refs, cutoff, key, m)
  {
    var dir := CacheName(m.id).value;
    ThreatExact(s, refs, cutoff, candidates, m);
    if NamedBySome(candidates, dir, m.revision) {
      var k :| 0 <= k < |candidates| && Names(candidates[k], dir, m.revision);
      assert Gone(t, candidates[k]) && candidates[k] in candidates;
    } else {
      assert Spared(s, t, dir, m.revision);
      assert forall c :: c in candidates ==> !Names(c, dir, m.revision);
    }
  }

  lemma NeededLostExactly(s: Cache, t: Cache, recipes: seq<Recipe>, operations: seq<Operation>, refs: References, cutoff: int,
                          candidates: seq<Candidate>)
    requires forall m :: Needed(recipes, operations, m) ==> Encode(m) in refs.models
    requires forall c :: c in candidates ==> Justified(s, refs, cutoff, c)
    requires forall key :: Obsolete(s, refs, cutoff, key) ==> RevisionOf(key, s.markers[key].manifest.value) in candidates
    requires forall k :: 0 <= k < |candidates| ==> Gone(t, candidates[k])
    requires forall repo, v :: !NamedBySome(candidates, repo, v) ==> Spared(s, t, repo, v)
    ensures forall m :: Needed(recipes, operations, m) && CacheName(m.id).Some? && HasSnapshot(s, CacheName(m.id).value, m.revision) ==>
              (!HasSnapshot(t, CacheName(m.id).value, m.revision) <==> exists key :: Shadows(s, refs, cutoff, key, m))
  {
    forall m | Needed(recipes, operations, m) && CacheName(m.id).Some? && HasSnapshot(s, CacheName(m.id).value, m.revision)
      ensures !HasSnapshot(t, CacheName(m.id).value, m.revision) <==> exists key :: Shadows(s, refs, cutoff, key, m)
    {
      LostExactly(s, t, refs, cutoff, candidates, m);
    }
  }

  /** A prune that has come to the next of the names, or has just failed. */
  ghost predicate Pruning(r: Repo, cutoff: int, works: string -> bool, names: seq<string>, next: nat, blobs: map<string, Blob>, ok: bool)
    requires next <= |names|
  {
    && (forall b :: b in blobs ==> b in r.blobs && blobs[b] == r.blobs[b])
    && (forall b :: b in r.blobs && b !in blobs ==> !KeepsBlob(r, b, cutoff) && works(b) && b in names[..next])
    && (forall k :: 0 <= k < (if ok then next else next - 1) && names[k] in blobs ==> KeepsBlob(r, names[k], cutoff))
    && (!ok ==> next > 0 && StopsAt(r, cutoff, works, names[next - 1]))
  }

  lemma PruneOne(r: Repo, cutoff: int, works: string -> bool, names: seq<string>, next: nat, blobs: map<string, Blob>)
    requires next < |names| && names[next] in r.blobs && Pruning(r, cutoff, works, names, next, blobs, true)
    ensures var b := names[next];
            if KeepsBlob(r, b, cutoff) then Pruning(r, cutoff, works, names, next + 1, blobs, true)
            else if works(b) then Pruning(r, cutoff, works, names, next + 1, blobs - {b}, true)
            else Pruning(r, cutoff, works, names, next + 1, blobs, false)
  {
    assert names[..next + 1] == names[..next] + [names[next]];
  }

  /** The prune, as far as it got. */
  lemma PrunedInOrder(r: Repo, cutoff: int, works: string -> bool, names: seq<string>, next: nat, blobs: map<string, Blob>, ok: bool)
    requires Ordering.StrictlySorted(names) && (forall b :: b in names <==> b in r.blobs) && next <= |names|
    requires Pruning(r, cutoff, works, names, next, blobs, ok) && (ok ==> next == |names|)
    ensures r.(blobs := blobs) == PrunedUntil(r, cutoff, works)
    ensures ok <==> forall b :: b in r.blobs && !KeepsBlob(r, b, cutoff) ==> works(b)
    ensures ok ==> r.(blobs := blobs) == Pruned(r, cutoff)
  {
    GoneAreReached(r, cutoff, works, names, next, blobs, ok);
    StayingAreNot(r, cutoff, works, names, next, blobs, ok);
    assert blobs == PrunedUntil(r, cutoff, works).blobs;
    if ok { assert blobs == Pruned(r, cutoff).blobs; }
  }

  lemma GoneAreReached(r: Repo, cutoff: int, works: string -> bool, names: seq<string>, next: nat, blobs: map<string, Blob>, ok: bool)
    requires Ordering.StrictlySorted(names) && (forall b :: b in names <==> b in r.blobs) && next <= |names|
    requires Pruning(r, cutoff, works, names, next, blobs, ok) && (ok ==> next == |names|)
    ensures forall b :: b in r.blobs && b !in blobs ==> Reaches(r, cutoff, works, b)
  {
    var end := if ok then next else next - 1;
    forall b, c | b in r.blobs && b !in blobs && StopsAt(r, cutoff, works, c) ensures Ordering.Less(b, c) {
      var i :| 0 <= i < next && names[i] == b;
      var j :| 0 <= j < |names| && names[j] == c;
      assert i < end <= j;
    }
  }

  lemma StayingAreNot(r: Repo, cutoff: int, works: string -> bool, names: seq<string>, next: nat, blobs: map<string, Blob>, ok: bool)
    requires Ordering.StrictlySorted(names) && (forall b :: b in names <==> b in r.blobs) && next <= |names|
    requires Pruning(r, cutoff, works, names, next, blobs, ok) && (ok ==> next == |names|)
    ensures forall b :: b in blobs && !KeepsBlob(r, b, cutoff) ==> !ok && !Reaches(r, cutoff, works, b)
  {
    var end := if ok then next else next - 1;
    forall b | b in blobs && !KeepsBlob(r, b, cutoff) ensures !ok && !Reaches(r, cutoff, works, b) {
      var i :| 0 <= i < |names| && names[i] == b;
      assert i >= end;
      Ordering.LessIrreflexive(b);
      if i > end && Ordering.Less(b, names[end]) { Ordering.LessTransitive(b, names[end], b); }
    }
  }

  const FREE := 20 * 1024 * 1024 * 1024

  /** Less than 20 GiB are free. */
  predicate Pressed(available: int)
  {
    available < FREE
  }

  /** A candidate has not changed for 30 days, or for 7 when space is short; in seconds. */
  function Cutoff(now: int, available: int): int
  {
    now - (if Pressed(available) then 7 * 24 * 3600 else 30 * 24 * 3600)
  }

  /** A collection tries candidates in order: all of them, or as many as it takes, when space
      is short, until enough is free. */
  ghost predicate Runs(s: Cache, candidates: seq<Candidate>, cutoff: int, available: int, answer: nat -> Removal, measured: nat -> Option<int>,
                       tried: nat, end: Sweep)
  {
    && tried <= |candidates| && end == Swept(Sweep(s, [], available), candidates[..tried], cutoff, answer, measured)
    && (forall k :: 0 <= k < tried ==> !(Pressed(available) && Swept(Sweep(s, [], available), candidates[..k], cutoff, answer, measured).free >= FREE))
    && (tried == |candidates| || (Pressed(available) && end.free >= FREE))
  }

  /** An obsolete revision is collected: its snapshot is gone, and of the blobs of its
      repository only those are left that another snapshot's link ends at, that are incomplete,
      or that are young. */
  ghost predicate Collected(s: Cache, m: Model, cutoff: int, t: Cache)
  {
    CacheName(m.id).Some? &&
    var dir := CacheName(m.id).value;
    && !HasSnapshot(t, dir, m.revision)
    && (dir in s.repos ==> dir in t.repos && forall b :: b in t.repos[dir].blobs ==> b in s.repos[dir].blobs && KeepsBlob(s.repos[dir].(snapshots := t.repos[dir].snapshots), b, cutoff))
  }

  lemma SortKeepsMembers(s: Cache, candidates: seq<Candidate>)
    ensures SortedBy(Sooner(s), SortBy(Sooner(s), candidates))
    ensures forall c :: c in SortBy(Sooner(s), candidates) <==> c in candidates
  {
    SoonerOrders(s);
    SortByWorks(Sooner(s), candidates);
    forall c ensures c in SortBy(Sooner(s), candidates) <==> c in candidates {
      assert c in SortBy(Sooner(s), candidates) <==> c in multiset(SortBy(Sooner(s), candidates));
      assert c in candidates <==> c in multiset(candidates);
    }
  }

  /** Justified candidates name nothing that a refs entry names or that is needed in a
      directory of its own. */
  lemma JustifiedSpare(s: Cache, recipes: seq<Recipe>, operations: seq<Operation>, refs: References, cutoff: int, candidates: seq<Candidate>)
    requires forall c :: c in candidates <==> Justified(s, refs, cutoff, c)
    requires forall m :: Needed(recipes, operations, m) ==> Encode(m) in refs.models
    ensures forall key :: Obsolete(s, refs, cutoff, key) ==> RevisionOf(key, s.markers[key].manifest.value) in candidates
    ensures forall repo, v :: RevisionReferenced(s, repo, v) ==> !NamedBySome(candidates, repo, v)
    ensures forall m :: Needed(recipes, operations, m) && CacheName(m.id).Some? && OwnDirectory(s, m) ==>
              !NamedBySome(candidates, CacheName(m.id).value, m.revision)
  {
    forall key | Obsolete(s, refs, cutoff, key) ensures RevisionOf(key, s.markers[key].manifest.value) in candidates {
      assert Justified(s, refs, cutoff, RevisionOf(key, s.markers[key].manifest.value));
    }
    forall m | Needed(recipes, operations, m) && CacheName(m.id).Some? && OwnDirectory(s, m)
      ensures !NamedBySome(candidates, CacheName(m.id).value, m.revision)
    {
      ProtectedIsUnnamed(s, refs, cutoff, candidates, m);
    }
    assert forall k :: 0 <= k < |candidates| ==> candidates[k] in candidates;
  }

  lemma CollectsObsolete(s: Cache, refs: References, cutoff: int, candidates: seq<Candidate>, t: Cache)
    requires forall key :: Obsolete(s, refs, cutoff, key) ==> RevisionOf(key, s.markers[key].manifest.value) in candidates
    requires Taken(s, candidates, t) && Freed(s, candidates, cutoff, t)
    ensures forall key :: Obsolete(s, refs, cutoff, key) ==> key !in t.markers && Collected(s, s.markers[key].manifest.value, cutoff, t)
  {
    forall key | Obsolete(s, refs, cutoff, key) ensures key !in t.markers && Collected(s, s.markers[key].manifest.value, cutoff, t) {
      var m := s.markers[key].manifest.value;
      var c := RevisionOf(key, m);
      assert c in candidates;
      var k :| 0 <= k < |candidates| && candidates[k] == c;
      assert Names(candidates[k], c.repo, c.revision);
      assert NamedBySome(candidates, c.repo, c.revision) && InRepo(candidates, c.repo);
    }
  }

  class ModelCache {
    var repos: map<string, Repo>
    var markers: map<string, Marker>

    constructor (repos: map<string, Repo>, markers: map<string, Marker>)
      ensures State() == Cache(repos, markers)
    {
      this.repos, this.markers := repos, markers;
    }

    function State(): Cache
      reads this
    {
      Cache(repos, markers)
    }

    method CollectObsoleteSnapshots(refs: References, cutoff: int) returns (candidates: seq<Candidate>)
      ensures forall c :: c in candidates <==> Justified(State(), refs, cutoff, c)
    {
      candidates := [];
      var rest := markers.Keys;
      while rest != {}
        invariant rest <= markers.Keys
        invariant forall c :: c in candidates ==> Justified(State(), refs, cutoff, c)
        invariant forall c: Candidate :: c.key !in rest && Justified(State(), refs, cutoff, c) ==> c in candidates
        decreases |rest|
      {
        var key :| key in rest;
        rest := rest - {key};
        if key in refs.artifactKeys || markers[key].updated > cutoff { continue; }
        if markers[key].manifest.None? {
          candidates := candidates + [InvalidManifest(key)];
          continue;
        }
        var m := markers[key].manifest.value;
        if Encode(m) in refs.models { continue; }
        var cacheName := CacheName(m.id);
        if cacheName.None? || RevisionReferenced(State(), cacheName.value, m.revision) { continue; }
        candidates := candidates + [RevisionOf(key, m)];
      }
    }

    /** `works(b)` says whether removing blob b succeeds. */
    method PruneUnreferencedBlobs(repo: string, cutoff: int, works: string -> bool) returns (ok: bool)
      modifies this
      ensures markers == old(markers)
      ensures repos == if repo in old(repos) then old(repos)[repo := PrunedUntil(old(repos)[repo], cutoff, works)] else old(repos)
      ensures ok <==> repo !in old(repos) || forall b :: b in old(repos)[repo].blobs && !KeepsBlob(old(repos)[repo], b, cutoff) ==> works(b)
      ensures ok && repo in repos ==> repos[repo] == Pruned(old(repos)[repo], cutoff)
    {
      if repo !in repos { return true; }
      var pruned;
      pruned, ok := Prune(repos[repo], cutoff, works);
      repos := repos[repo := pruned];
    }

    method Prune(r: Repo, cutoff: int, works: string -> bool) returns (t: Repo, ok: bool)
      ensures t == PrunedUntil(r, cutoff, works)
      ensures ok <==> forall b :: b in r.blobs && !KeepsBlob(r, b, cutoff) ==> works(b)
      ensures ok ==> t == Pruned(r, cutoff)
    {
      var referenced := ReferencedBlobs(r);
      var names := Ordering.SortedKeys(r.blobs.Keys);
      var blobs, next := r.blobs, 0;
      ok := true;
      while next < |names| && ok
        invariant 0 <= next <= |names| && Pruning(r, cutoff, works, names, next, blobs, ok)
        decreases |names| - next
      {
        var b := names[next];
        PruneOne(r, cutoff, works, names, next, blobs);
        if !(b in referenced || HasSuffix(b, ".incomplete") || r.blobs[b].updated > cutoff) {
          if works(b) { blobs := blobs - {b}; } else { ok := false; }
        }
        next := next + 1;
      }
      PrunedInOrder(r, cutoff, works, names, next, blobs, ok);
      t := r.(blobs := blobs);
    }

    /** The blobs some snapshot link resolves to. */
    method ReferencedBlobs(r: Repo) returns (referenced: set<string>)
      ensures forall b :: b in referenced <==> b in r.blobs && Referenced(r, b)
    {
      referenced := {};
      var rest := r.snapshots.Keys;
      while rest != {}
        invariant rest <= r.snapshots.Keys
        invariant forall b :: b in referenced <==>
                    b in r.blobs && exists v, p :: v in r.snapshots && v !in rest && p in r.snapshots[v] && End(r, r.snapshots[v][p], LINKS) == Some(ToBlob(b))
        decreases |rest|
      {
        var v :| v in rest;
        rest := rest - {v};
        var links := r.snapshots[v];
        referenced := referenced + set b | b in r.blobs && exists p :: p in links && End(r, links[p], LINKS) == Some(ToBlob(b));
      }
    }

    /** A removal in the order: snapshot, marker, blobs. */
    method RemoveCandidate(c: Candidate, cutoff: int, a: Removal) returns (ok: bool)
      modifies this
      ensures State() == After(old(State()), c, cutoff, a)
      ensures ok <==> Succeeds(old(State()), c, cutoff, a)
      ensures ok ==> c.key !in markers
      ensures ok && c.Revision? && c.repo in old(repos) ==>
                var middle := old(repos)[c.repo].(snapshots := old(repos)[c.repo].snapshots - {c.revision});
                repos == old(repos)[c.repo := Pruned(middle, cutoff)]
    {
      if c.InvalidManifest? {
        if a.unmarked { markers := markers - {c.key}; }
        return a.unmarked;
      }
      if c.repo in repos {
        var snapshots := repos[c.repo].snapshots;
        if a.cleared { snapshots := snapshots - {c.revision}; }
        else if c.revision in snapshots {
          var links := snapshots[c.revision];
          snapshots := snapshots[c.revision := map p | p in links && a.left(p) :: links[p]];
        }
        repos := repos[c.repo := repos[c.repo].(snapshots := snapshots)];
      }
      if !a.cleared || !a.unmarked { return false; }
      markers := markers - {c.key};
      ok := PruneUnreferencedBlobs(c.repo, cutoff, a.works);
    }

    /** One collection. Short of space, it takes younger candidates too, and stops as soon as
        enough is free. */
    method CollectGarbage(recipes: seq<Recipe>, operations: seq<Operation>, now: int, available: int, apply: bool,
                          measured: nat -> Option<int>, answer: nat -> Removal)
      returns (candidates: seq<Candidate>, tried: nat, removed: seq<Candidate>, free: int)
      modifies this
      ensures forall c :: c in candidates <==> Justified(old(State()), RefsOf(recipes, operations), Cutoff(now, available), c)
      ensures SortedBy(Sooner(old(State())), candidates)
      ensures !apply ==> State() == old(State()) && tried == 0 && removed == []
      ensures apply ==> Runs(old(State()), candidates, Cutoff(now, available), available, answer, measured, tried, Sweep(State(), removed, free))
      ensures apply ==> tried == |candidates| || (tried < |candidates| && available < 21474836480 <= free)
      ensures apply && AllWork(answer) ==> removed == candidates[..tried] && Taken(old(State()), removed, State())
                                           && Freed(old(State()), removed, Cutoff(now, available), State())
      ensures apply && AllWork(answer) && available >= 21474836480 ==>
                forall key :: Obsolete(old(State()), RefsOf(recipes, operations), now - 2592000, key) ==>
                  key !in markers && Collected(old(State()), old(markers)[key].manifest.value, now - 2592000, State())
      ensures LinksKept(old(State()), State())
      ensures forall repo, v :: RevisionReferenced(old(State()), repo, v) ==> Spared(old(State()), State(), repo, v)
      ensures forall m :: Needed(recipes, operations, m) && CacheName(m.id).Some? && OwnDirectory(old(State()), m) ==>
                Spared(old(State()), State(), CacheName(m.id).value, m.revision)
      ensures apply && available >= 21474836480 && (forall k :: answer(k).cleared) ==>
                forall m :: Needed(recipes, operations, m) && CacheName(m.id).Some? && HasSnapshot(old(State()), CacheName(m.id).value, m.revision) ==>
                  (!HasSnapshot(State(), CacheName(m.id).value, m.revision) <==>
                   exists key :: Shadows(old(State()), RefsOf(recipes, operations), Cutoff(now, available), key, m))
    {
      ghost var s := State();
      var refs := ReferenceSet(recipes, operations);
      var cutoff := Cutoff(now, available);
      candidates := CollectObsoleteSnapshots(refs, cutoff);
      SortKeepsMembers(s, candidates);
      candidates := SortBy(Sooner(State()), candidates);
      JustifiedSpare(s, recipes, operations, refs, cutoff, candidates);
      tried, removed, free := 0, [], available;
      if !apply { return; }
      tried, removed, free := RemoveCandidates(candidates, cutoff, available, measured, answer);
      if AllWork(answer) {
        SweepFrees(s, candidates, tried, cutoff, available, answer, measured);
        if !Pressed(available) {
          assert candidates[..tried] == candidates;
          CollectsObsolete(s, refs, cutoff, candidates, State());
        }
      }
      if !Pressed(available) && forall k :: answer(k).cleared {
        NeededLostExactly(s, State(), recipes, operations, refs, cutoff, candidates);
      }
    }

    /** Candidate by candidate, whether a removal works or not, until enough space is free. */
    method RemoveCandidates(candidates: seq<Candidate>, cutoff: int, available: int, measured: nat -> Option<int>, answer: nat -> Removal)
      returns (tried: nat, removed: seq<Candidate>, free: int)
      modifies this
      ensures Runs(old(State()), candidates, cutoff, available, answer, measured, tried, Sweep(State(), removed, free))
      ensures LinksKept(old(State()), State())
      ensures forall repo, v :: !NamedBySome(candidates, repo, v) ==> Spared(old(State()), State(), repo, v)
      ensures !Pressed(available) && (forall k :: answer(k).cleared) ==> forall k :: 0 <= k < |candidates| ==> Gone(State(), candidates[k])
    {
      ghost var start := Sweep(State(), [], available);
      tried, removed, free := 0, [], available;
      while tried < |candidates| && !(Pressed(available) && free >= FREE)
        invariant tried <= |candidates|
        invariant Sweep(State(), removed, free) == Swept(start, candidates[..tried], cutoff, answer, measured)
        invariant forall k :: 0 <= k < tried ==> !(Pressed(available) && Swept(start, candidates[..k], cutoff, answer, measured).free >= FREE)
        decreases |candidates| - tried
      {
        SweptOneMore(start, candidates, tried, cutoff, answer, measured);
        var ok := RemoveCandidate(candidates[tried], cutoff, answer(tried));
        if ok {
          removed := removed + [candidates[tried]];
          if measured(tried).Some? { free := measured(tried).value; }
        }
        tried := tried + 1;
      }
      SweepIsSafe(start, candidates, tried, cutoff, answer, measured);
      if forall k :: answer(k).cleared { SweepClears(start, candidates, tried, cutoff, answer, measured); }
    }
  }
}

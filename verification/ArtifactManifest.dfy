/** The content manifest of a model snapshot: what is fed to its digest, how it is built
    here and recomputed on a worker, and how it survives being saved and loaded. Hashing is
    a parameter; a char stands for a byte. */
module ArtifactManifest {
  import opened Ordering
  import opened Sorting
  import opened Utf8
  import opened Strings

  datatype Result<T> = Ok(value: T) | Err(error: string)

  const VERSION := 1
  const NUL := '\0'

  datatype File = File(path: string, size: int, sha256: string)

  datatype Manifest = Manifest(version: int, modelId: string, revision: string, files: seq<File>, bytes: int, digest: string)

  /** Matches ^[a-f0-9]{64}$. */
  predicate IsSHA256(s: string)
  {
    |s| == 64 && forall i :: 0 <= i < 64 ==> 'a' <= s[i] <= 'f' || '0' <= s[i] <= '9'
  }

  predicate Encodable(f: File)
  {
    NUL !in f.path && IsSHA256(f.sha256)
  }

  function EncodeFile(f: File): string
  {
    f.path + [NUL] + Decimal(f.size) + [NUL] + f.sha256 + "\n"
  }

  function Encode(files: seq<File>): string
  {
    if files == [] then "" else EncodeFile(files[0]) + Encode(files[1..])
  }

  // Decoding, which the program never does: it shows that nothing was lost.

  function Field(s: string): string
  {
    if s == "" || s[0] == NUL then "" else [s[0]] + Field(s[1..])
  }

  function Decode(s: string): Option<seq<File>>
    decreases |s|
  {
    if s == "" then Some([]) else
      var path := Field(s);
      var afterPath := s[Min(|path| + 1, |s|)..];
      var size := Field(afterPath);
      var afterSize := afterPath[Min(|size| + 1, |afterPath|)..];
      if |afterSize| < 65 then None else
        var rest := Decode(afterSize[65..]);
        if rest.None? then None else Some([File(path, ParseDecimal(size), afterSize[..64])] + rest.value)
  }

  function Min(a: nat, b: nat): nat
  {
    if a < b then a else b
  }

  lemma {:induction false} FieldReads(field: string, rest: string)
    requires NUL !in field
    ensures Field(field + [NUL] + rest) == field
  {
    var s := field + [NUL] + rest;
    if field != "" {
      assert s[1..] == field[1..] + [NUL] + rest;
      FieldReads(field[1..], rest);
    }
  }

  /** Skipping a field and the NUL behind it. */
  lemma FieldSkips(field: string, rest: string)
    requires NUL !in field
    ensures var s := field + [NUL] + rest; Field(s) == field && s[Min(|field| + 1, |s|)..] == rest
  {
    FieldReads(field, rest);
  }

  lemma DecodeFields(path: string, size: string, afterSize: string)
    requires NUL !in path && NUL !in size && |afterSize| >= 65 && Decode(afterSize[65..]).Some?
    ensures Decode(path + [NUL] + (size + [NUL] + afterSize)) ==
            Some([File(path, ParseDecimal(size), afterSize[..64])] + Decode(afterSize[65..]).value)
  {
    FieldSkips(path, size + [NUL] + afterSize);
    FieldSkips(size, afterSize);
  }

  lemma DecodeOne(f: File, rest: string)
    requires Encodable(f) && Decode(rest).Some?
    ensures Decode(EncodeFile(f) + rest) == Some([f] + Decode(rest).value)
  {
    var size := Decimal(f.size);
    var afterSize := f.sha256 + "\n" + rest;
    assert afterSize[65..] == rest && afterSize[..64] == f.sha256;
    DecimalReads(f.size);
    DecodeFields(f.path, size, afterSize);
    EncodedFields(f, rest);
  }

  lemma EncodedFields(f: File, rest: string)
    ensures EncodeFile(f) + rest == f.path + [NUL] + (Decimal(f.size) + [NUL] + (f.sha256 + "\n" + rest))
  {
  }

  /** Whatever the paths contain, the encoding gives the list back. */
  lemma {:induction false} DecodeEncode(files: seq<File>)
    requires forall i :: 0 <= i < |files| ==> Encodable(files[i])
    ensures Decode(Encode(files)) == Some(files)
  {
    if files != [] {
      DecodeEncode(files[1..]);
      DecodeOne(files[0], Encode(files[1..]));
      assert files == [files[0]] + files[1..];
    }
  }

  predicate AllEncodable(files: seq<File>)
  {
    forall i :: 0 <= i < |files| ==> Encodable(files[i])
  }

  /** Unless the hash collides, equal digests mean equal lists. */
  lemma DigestIdentifies(hash: string -> string, a: seq<File>, b: seq<File>)
    requires AllEncodable(a) && AllEncodable(b)
    requires hash(Encode(a)) == hash(Encode(b)) ==> Encode(a) == Encode(b)
    ensures hash(Encode(a)) == hash(Encode(b)) <==> a == b
  {
    DecodeEncode(a);
    DecodeEncode(b);
  }

  lemma {:induction false} EncodeAppends(a: seq<File>, f: File)
    ensures Encode(a + [f]) == Encode(a) + EncodeFile(f)
  {
    if a == [] {
      assert a + [f] == [f];
    } else {
      assert (a + [f])[1..] == a[1..] + [f];
      EncodeAppends(a[1..], f);
    }
  }

  /** Feeds the files to the hash one by one. */
  method Digest(hash: string -> string, files: seq<File>) returns (digest: Result<string>)
    ensures digest == if AllEncodable(files) then Ok(hash(Encode(files))) else Err("invalid model artifact manifest")
  {
    var fed := "";
    for i := 0 to |files|
      invariant AllEncodable(files[..i]) && fed == Encode(files[..i])
    {
      if NUL in files[i].path || !IsSHA256(files[i].sha256) {
        return Err("invalid model artifact manifest");
      }
      EncodeAppends(files[..i], files[i]);
      assert files[..i + 1] == files[..i] + [files[i]];
      fed := fed + EncodeFile(files[i]);
    }
    assert files[..|files|] == files;
    digest := Ok(hash(fed));
  }

  function Sum(files: seq<File>): int
  {
    if files == [] then 0 else files[0].size + Sum(files[1..])
  }

  lemma {:induction false} SumAppends(files: seq<File>, f: File)
    ensures Sum(files + [f]) == Sum(files) + f.size
  {
    if files == [] {
      assert files + [f] == [f];
    } else {
      assert (files + [f])[1..] == files[1..] + [f];
      SumAppends(files[1..], f);
    }
  }

  lemma {:induction false} SumInserts(less: (File, File) -> bool, x: File, s: seq<File>)
    ensures Sum(InsertBy(less, x, s)) == x.size + Sum(s)
  {
    if s == [] || !less(s[0], x) {
      assert ([x] + s)[1..] == s;
    } else {
      SumInserts(less, x, s[1..]);
      assert InsertBy(less, x, s)[1..] == InsertBy(less, x, s[1..]);
    }
  }

  /** Sorting keeps the total. */
  lemma {:induction false} SumOfSorted(less: (File, File) -> bool, files: seq<File>)
    ensures Sum(SortBy(less, files)) == Sum(files)
  {
    if files != [] {
      SumOfSorted(less, files[1..]);
      SumInserts(less, files[0], SortBy(less, files[1..]));
    }
  }

  /** What a walk of a snapshot meets besides directories. `Outside` and `Other` say whether
      a link leads out of the repository and whether it leads to a regular file. */
  datatype Kind = Regular(size: nat, sha256: string) | OutsideFile | OutsideOther | Dangling | Other | Unreadable

  datatype Found = Found(path: string, kind: Kind)

  function ByPath(): (File, File) -> bool
  {
    (a: File, b: File) => Less(a.path, b.path)
  }

  /** The regular files of a walk. */
  function FilesOf(walk: seq<Found>): seq<File>
  {
    if walk == [] then [] else
      var last := walk[|walk| - 1];
      FilesOf(walk[..|walk| - 1]) + if last.kind.Regular? then [File(last.path, last.kind.size, last.kind.sha256)] else []
  }

  predicate AllRegular(walk: seq<Found>)
  {
    forall i :: 0 <= i < |walk| ==> walk[i].kind.Regular?
  }

  /** A walk meets each path once; names hold no NUL, and file hashes are hashes. */
  ghost predicate IsWalk(walk: seq<Found>)
  {
    && (forall i, j :: 0 <= i < j < |walk| ==> walk[i].path != walk[j].path)
    && (forall i :: 0 <= i < |walk| ==> NUL !in walk[i].path && (walk[i].kind.Regular? ==> IsSHA256(walk[i].kind.sha256)))
  }

  function Built(hash: string -> string, walk: seq<Found>, modelId: string, revision: string): Manifest
  {
    var files := SortBy(ByPath(), FilesOf(walk));
    Manifest(VERSION, modelId, revision, files, Sum(FilesOf(walk)), hash(Encode(files)))
  }

  method Build(hash: string -> string, walk: seq<Found>, modelId: string, revision: string) returns (r: Result<Manifest>)
    ensures r.Ok? <==> walk != [] && AllRegular(walk) && AllEncodable(SortBy(ByPath(), FilesOf(walk)))
    ensures r.Ok? ==> r.value == Built(hash, walk, modelId, revision)
  {
    var files, bytes := [], 0;
    for i := 0 to |walk|
      invariant AllRegular(walk[..i]) && files == FilesOf(walk[..i]) && bytes == Sum(files) && |files| == i
    {
      assert walk[..i + 1][..i] == walk[..i];
      if !walk[i].kind.Regular? { return Err("model snapshot link or file refused"); }
      var file := File(walk[i].path, walk[i].kind.size, walk[i].kind.sha256);
      SumAppends(files, file);
      files := files + [file];
      bytes := bytes + file.size;
    }
    assert walk[..|walk|] == walk;
    if files == [] { return Err("model snapshot contains no files"); }
    files := SortBy(ByPath(), files);
    var digest := Digest(hash, files);
    r := if digest.Err? then Err(digest.error) else Ok(Manifest(VERSION, modelId, revision, files, bytes, digest.value));
  }

  method FeedAll(files: seq<File>) returns (fed: string)
    ensures fed == Encode(files)
  {
    fed := "";
    for i := 0 to |files|
      invariant fed == Encode(files[..i])
    {
      EncodeAppends(files[..i], files[i]);
      assert files[..i + 1] == files[..i] + [files[i]];
      var line := EncodeFile(files[i]);
      fed := fed + line;
    }
    assert files[..|files|] == files;
  }

  /** The worker's verifier leaves out what is no file, and refuses only files outside. */
  method VerifyOnWorker(hash: string -> string, walk: seq<Found>) returns (r: Result<string>)
    ensures r.Ok? <==> WorkerAccepts(walk)
    ensures r.Ok? ==> r.value == hash(Encode(SortBy(ByPath(), FilesOf(walk))))
  {
    var files := [];
    for i := 0 to |walk|
      invariant files == FilesOf(walk[..i])
      invariant forall k :: 0 <= k < i ==> WorkerPasses(walk[k])
    {
      assert walk[..i + 1][..i] == walk[..i];
      match walk[i].kind
      case Regular(size, sha256) =>
        if !IsUtf8(walk[i].path) { return Err("a path is no text"); }
        files := files + [File(walk[i].path, size, sha256)];
      case OutsideFile => return Err("snapshot link escapes repository");
      case Unreadable => return Err("unreadable");
      case _ =>
    }
    assert walk[..|walk|] == walk;
    if files == [] { return Err("empty snapshot"); }
    var fed := FeedAll(SortBy(ByPath(), files));
    r := Ok(hash(fed));
  }

  lemma ByPathOrders()
    ensures Orders(ByPath())
  {
    var less := ByPath();
    forall a, b, c ensures !less(a, a) && (less(a, b) && less(b, c) ==> less(a, c)) && (less(a, c) ==> less(a, b) || less(b, c)) {
      LessIrreflexive(a.path);
      if less(a, b) && less(b, c) { LessTransitive(a.path, b.path, c.path); }
      if less(a, c) && !less(a, b) {
        LessTotal(a.path, b.path);
        if Less(b.path, a.path) { LessTransitive(b.path, a.path, c.path); }
      }
    }
  }

  /** The walked entry a file comes from. */
  function Origin(f: File): Found
    requires f.size >= 0
  {
    Found(f.path, Regular(f.size, f.sha256))
  }

  lemma {:induction false} FilesCountWalk(walk: seq<Found>, f: File)
    ensures multiset(FilesOf(walk))[f] == if f.size >= 0 then multiset(walk)[Origin(f)] else 0
  {
    if walk != [] {
      var most, last := walk[..|walk| - 1], walk[|walk| - 1];
      FilesCountWalk(most, f);
      assert walk == most + [last];
      assert multiset(walk) == multiset(most) + multiset{last};
    }
  }

  lemma FilesAreEncodable(walk: seq<Found>, files: seq<File>)
    requires IsWalk(walk) && multiset(files) == multiset(FilesOf(walk))
    ensures AllEncodable(files)
    ensures forall i :: 0 <= i < |files| ==> files[i].size >= 0
  {
    forall i | 0 <= i < |files| ensures Encodable(files[i]) && files[i].size >= 0 {
      assert files[i] in multiset(files);
      FilesCountWalk(walk, files[i]);
      assert files[i].size >= 0 && Origin(files[i]) in walk;
    }
  }

  /** Files of one walk differ in their paths. */
  lemma PathsSeparate(walk: seq<Found>)
    requires IsWalk(walk)
    ensures Separates(ByPath(), multiset(FilesOf(walk)))
  {
    var files := FilesOf(walk);
    forall a, b | a in multiset(files) && b in multiset(files) && a != b ensures ByPath()(a, b) || ByPath()(b, a) {
      FilesCountWalk(walk, a);
      FilesCountWalk(walk, b);
      var i :| 0 <= i < |walk| && walk[i] == Origin(a);
      var j :| 0 <= j < |walk| && walk[j] == Origin(b);
      assert i != j;
      LessTotal(a.path, b.path);
    }
  }

  /** What a walk finds never makes the digest fail. */
  lemma WalkIsEncodable(walk: seq<Found>)
    requires IsWalk(walk)
    ensures AllEncodable(SortBy(ByPath(), FilesOf(walk)))
  {
    ByPathOrders();
    SortByWorks(ByPath(), FilesOf(walk));
    FilesAreEncodable(walk, SortBy(ByPath(), FilesOf(walk)));
  }

  /** Two walks that meet the same entries, in whatever order, yield one encoding: every node
      computes the same digest for the same content. */
  lemma EveryNodeAgrees(walk: seq<Found>, other: seq<Found>)
    requires IsWalk(walk) && multiset(walk) == multiset(other)
    ensures SortBy(ByPath(), FilesOf(walk)) == SortBy(ByPath(), FilesOf(other))
  {
    var a, b := FilesOf(walk), FilesOf(other);
    forall f ensures multiset(a)[f] == multiset(b)[f] {
      FilesCountWalk(walk, f);
      FilesCountWalk(other, f);
    }
    ByPathOrders();
    PathsSeparate(walk);
    assert multiset(a) == multiset(b);
    SortIgnoresOrder(ByPath(), a, b);
  }

  predicate BuildAccepts(walk: seq<Found>)
  {
    walk != [] && AllRegular(walk)
  }

  /** It reads paths as text, and fails on one that is not. */
  predicate WorkerAccepts(walk: seq<Found>)
  {
    FilesOf(walk) != [] && forall i :: 0 <= i < |walk| ==> WorkerPasses(walk[i])
  }

  predicate WorkerPasses(f: Found)
  {
    !f.kind.OutsideFile? && !f.kind.Unreadable? && (f.kind.Regular? ==> IsUtf8(f.path))
  }

  lemma {:induction false} RegularWalkHasFiles(walk: seq<Found>)
    ensures AllRegular(walk) ==> |FilesOf(walk)| == |walk|
  {
    if walk != [] { RegularWalkHasFiles(walk[..|walk| - 1]); }
  }

  /** The two verifiers do not accept the same snapshots: the worker's lets those pass that
      hold something that is no file, and stops at paths that are no text. */
  lemma VerifiersDifferExactly(walk: seq<Found>)
    ensures BuildAccepts(walk) && (forall i :: 0 <= i < |walk| ==> IsUtf8(walk[i].path)) <==>
            WorkerAccepts(walk) && AllRegular(walk)
  {
    RegularWalkHasFiles(walk);
  }

  /** A file beside a dangling link, and a file whose name is the byte 0xFF. */
  lemma VerifiersDifferExample(sha256: string)
    ensures var dangling := [Found("a", Regular(1, sha256)), Found("b", Dangling)];
            var unreadable := [Found("\U{00FF}", Regular(1, sha256))];
            WorkerAccepts(dangling) && !BuildAccepts(dangling) && BuildAccepts(unreadable) && !WorkerAccepts(unreadable)
  {
    var dangling := [Found("a", Regular(1, sha256)), Found("b", Dangling)];
    assert dangling[..1] == [Found("a", Regular(1, sha256))] && dangling[..1][..0] == [];
    assert FilesOf(dangling[..1]) == [File("a", 1, sha256)] && FilesOf(dangling) == FilesOf(dangling[..1]) + [];
    assert dangling[1].kind == Dangling && RuneLength("a") == 1 && IsUtf8("a");
    var unreadable := [Found("\U{00FF}", Regular(1, sha256))];
    assert RuneLength("\U{00FF}") == 0 && unreadable[0].path == "\U{00FF}" && !WorkerPasses(unreadable[0]);
  }

  /** Content the worker's verifier found to have the expected digest is the content the
      manifest lists, unless the hash collides. */
  lemma WorkerMatchMeansContent(hash: string -> string, m: Manifest, local: seq<Found>, worker: seq<Found>)
    requires IsWalk(local) && IsWalk(worker) && m.files == SortBy(ByPath(), FilesOf(local))
    requires m.digest == hash(Encode(m.files)) == hash(Encode(SortBy(ByPath(), FilesOf(worker))))
    requires hash(Encode(m.files)) == hash(Encode(SortBy(ByPath(), FilesOf(worker)))) ==> Encode(m.files) == Encode(SortBy(ByPath(), FilesOf(worker)))
    ensures multiset(FilesOf(worker)) == multiset(FilesOf(local)) == multiset(m.files)
  {
    ByPathOrders();
    SortByWorks(ByPath(), FilesOf(local));
    SortByWorks(ByPath(), FilesOf(worker));
    FilesAreEncodable(local, m.files);
    FilesAreEncodable(worker, SortBy(ByPath(), FilesOf(worker)));
    DigestIdentifies(hash, m.files, SortBy(ByPath(), FilesOf(worker)));
  }

  // Saving and loading.

  lemma {:induction false} PlainStays(s: string)
    requires PlainText(s)
    ensures Coerced(s) == s
  {
    if s != "" {
      PlainStays(s[1..]);
      assert RuneLength(s) == 1 && s == s[..1] + s[1..];
    }
  }

  lemma {:induction false} NoNulAppears(s: string)
    requires NUL !in s
    ensures NUL !in Coerced(s)
    decreases |s|
  {
    if s != "" {
      var n := if RuneLength(s) == 0 then 1 else RuneLength(s);
      NoNulAppears(s[n..]);
      assert NUL !in REPLACEMENT && NUL !in s[..n];
    }
  }

  function Written(m: Manifest): Manifest
  {
    m.(modelId := Coerced(m.modelId), revision := Coerced(m.revision), files := WrittenFiles(m.files), digest := Coerced(m.digest))
  }

  function OneWritten(f: File): File
  {
    File(Coerced(f.path), f.size, Coerced(f.sha256))
  }

  function WrittenFiles(files: seq<File>): (r: seq<File>)
    ensures |r| == |files|
    ensures forall i :: 0 <= i < |files| ==> r[i] == OneWritten(files[i])
  {
    if files == [] then [] else [OneWritten(files[0])] + WrittenFiles(files[1..])
  }

  function NegativeAt(files: seq<File>): bool
  {
    exists i :: 0 <= i < |files| && files[i].size < 0
  }

  /** Exactly what loading accepts. */
  predicate Loadable(hash: string -> string, m: Manifest)
  {
    && m.version == VERSION && IsSHA256(m.digest) && AllEncodable(m.files) && hash(Encode(m.files)) == m.digest
    && !NegativeAt(m.files) && Sum(m.files) == m.bytes
  }

  method CheckLoaded(hash: string -> string, m: Manifest) returns (r: Result<Manifest>)
    ensures r.Ok? <==> Loadable(hash, m)
    ensures r.Ok? ==> r.value == m
  {
    if m.version != VERSION || !IsSHA256(m.digest) { return Err("unsupported model artifact manifest"); }
    var computed := Digest(hash, m.files);
    if computed.Err? || computed.value != m.digest { return Err("model artifact manifest integrity check failed"); }
    var bytes := 0;
    for i := 0 to |m.files|
      invariant bytes == Sum(m.files[..i]) && !NegativeAt(m.files[..i])
    {
      if m.files[i].size < 0 { return Err("model artifact manifest contains an invalid size"); }
      SumAppends(m.files[..i], m.files[i]);
      assert m.files[..i + 1] == m.files[..i] + [m.files[i]];
      bytes := bytes + m.files[i].size;
    }
    assert m.files[..|m.files|] == m.files;
    if bytes != m.bytes { return Err("model artifact manifest byte total is invalid"); }
    r := Ok(m);
  }

  predicate PlainText(s: string)
  {
    forall i :: 0 <= i < |s| ==> s[i] < '\U{0080}'
  }

  predicate AllText(files: seq<File>)
  {
    forall i :: 0 <= i < |files| ==> IsUtf8(files[i].path)
  }

  /** The hash tells the written list from the built one. */
  ghost predicate Distinguishes(hash: string -> string, files: seq<File>)
  {
    hash(Encode(WrittenFiles(files))) == hash(Encode(files)) ==> Encode(WrittenFiles(files)) == Encode(files)
  }

  lemma WrittenStays(f: File)
    requires Encodable(f)
    ensures Encodable(OneWritten(f)) && OneWritten(f).sha256 == f.sha256 && (OneWritten(f) == f <==> IsUtf8(f.path))
  {
    PlainStays(f.sha256);
    NoNulAppears(f.path);
    CoercedExactly(f.path);
  }

  lemma WrittenStayEncodable(files: seq<File>)
    requires AllEncodable(files)
    ensures AllEncodable(WrittenFiles(files))
    ensures forall i :: 0 <= i < |files| ==> WrittenFiles(files)[i].sha256 == files[i].sha256
    ensures WrittenFiles(files) == files <==> AllText(files)
  {
    forall i | 0 <= i < |files| ensures WrittenFiles(files)[i] == OneWritten(files[i]) && Encodable(OneWritten(files[i]))
                                        && OneWritten(files[i]).sha256 == files[i].sha256 && (OneWritten(files[i]) == files[i] <==> IsUtf8(files[i].path)) {
      WrittenStays(files[i]);
    }
  }

  lemma {:induction false} WrittenSum(files: seq<File>)
    ensures Sum(WrittenFiles(files)) == Sum(files) && (NegativeAt(WrittenFiles(files)) <==> NegativeAt(files))
  {
    if files != [] {
      WrittenSum(files[1..]);
      assert WrittenFiles(files)[1..] == WrittenFiles(files[1..]);
    }
    if NegativeAt(files) {
      var i :| 0 <= i < |files| && files[i].size < 0;
      assert WrittenFiles(files)[i].size < 0;
    }
  }

  /** A manifest that was built and saved loads again exactly when its paths are UTF-8, and
      then with its files and its total. */
  lemma SavedLoadsExactly(hash: string -> string, walk: seq<Found>, m: Manifest)
    requires IsWalk(walk) && m == Built(hash, walk, m.modelId, m.revision)
    requires IsSHA256(m.digest) && Distinguishes(hash, m.files)
    ensures Loadable(hash, Written(m)) <==> AllText(m.files)
    ensures Loadable(hash, Written(m)) ==> Written(m).files == m.files && Written(m).bytes == Sum(m.files)
  {
    ByPathOrders();
    SortByWorks(ByPath(), FilesOf(walk));
    SumOfSorted(ByPath(), FilesOf(walk));
    FilesAreEncodable(walk, m.files);
    assert PlainText(m.digest);
    PlainStays(m.digest);
    WrittenStayEncodable(m.files);
    WrittenSum(m.files);
    DigestIdentifies(hash, WrittenFiles(m.files), m.files);
  }

  /** One file whose name is the byte 0xFF: the manifest is built, is saved, and never loads. */
  lemma UnloadableExample(hash: string -> string, sha256: string, modelId: string, revision: string)
    requires IsSHA256(sha256) && forall s :: IsSHA256(hash(s))
    requires Distinguishes(hash, [File("\U{00FF}", 1, sha256)])
    ensures var walk := [Found("\U{00FF}", Regular(1, sha256))];
            && IsWalk(walk) && BuildAccepts(walk)
            && !Loadable(hash, Written(Built(hash, walk, modelId, revision)))
  {
    var walk := [Found("\U{00FF}", Regular(1, sha256))];
    var m := Built(hash, walk, modelId, revision);
    assert walk[..0] == [] && FilesOf(walk) == [File("\U{00FF}", 1, sha256)];
    assert SortBy(ByPath(), FilesOf(walk)) == FilesOf(walk);
    assert NUL !in "\U{00FF}" && RuneLength("\U{00FF}") == 0;
    assert m.files[0].path == "\U{00FF}" && !AllText(m.files);
    SavedLoadsExactly(hash, walk, m);
  }

  /** The place of a manifest. Saving writes aside and renames, so it replaces or changes
      nothing. */
  class Store {
    var file: Option<Manifest>

    /** What a load finds after it: the old manifest if the save failed, and else the new one.
        One that was built from `walk` then loads exactly if its paths are text. */
    method Save(m: Manifest, works: bool, ghost hash: string -> string, ghost walk: seq<Found>) returns (ok: bool)
      modifies this
      ensures ok == works && file == if ok then Some(Written(m)) else old(file)
      ensures ok && IsWalk(walk) && m == Built(hash, walk, m.modelId, m.revision) && IsSHA256(m.digest) && Distinguishes(hash, m.files) ==>
                && (Loadable(hash, file.value) <==> AllText(m.files))
                && (AllText(m.files) ==> file.value.files == m.files && file.value.bytes == Sum(m.files))
    {
      if works { file := Some(Written(m)); }
      ok := works;
      if ok && IsWalk(walk) && m == Built(hash, walk, m.modelId, m.revision) && IsSHA256(m.digest) && Distinguishes(hash, m.files) {
        SavedLoadsExactly(hash, walk, m);
      }
    }

    method Load(hash: string -> string) returns (r: Result<Manifest>)
      ensures r.Ok? <==> file.Some? && Loadable(hash, file.value)
      ensures r.Ok? ==> r.value == file.value
    {
      if file.None? { return Err("model artifact manifest is missing"); }
      r := CheckLoaded(hash, file.value);
    }
  }
}

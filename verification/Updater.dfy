/** The updater: a recovery directory of .deb files kept in step with what is installed,
    and one update run that installs, probes, and keeps or rolls back. */
module Updater {
  import opened Ordering
  import opened Strings

  // ---------------------------------------------------------------- copyDebs

  /** A package file: which package, at which version. */
  datatype Deb = Deb(pkg: string, version: string)

  type Files = map<string, Deb>

  function IndexOf(s: string, c: char): (i: int)
    ensures -1 <= i < |s|
    ensures i >= 0 ==> s[i] == c && c !in s[..i]
    ensures i < 0 ==> c !in s
  {
    if s == [] then -1
    else if s[0] == c then 0
    else
      var i := IndexOf(s[1..], c);
      if i < 0 then -1
      else
        assert s[..i + 1] == [s[0]] + s[1..][..i];
        i + 1
  }

  predicate HasSuffix(s: string, t: string)
  {
    |t| <= |s| && s[|s| - |t|..] == t
  }

  /** The name matches the pattern `cloudless-*.deb`. */
  predicate IsCloudless(base: string)
  {
    "cloudless-" <= base && HasSuffix(base, ".deb") && |base| >= 14
  }

  /** The name up to and including its first underscore. */
  function Key(base: string): (k: string)
    ensures k <= base
  {
    base[..IndexOf(base, '_') + 1]
  }

  /** The name matches the pattern `<key>*.deb`. */
  predicate SamePackage(name: string, key: string)
  {
    key <= name && HasSuffix(name, ".deb") && |name| >= |key| + 4
  }

  /** How copying one file ends: one that cannot be opened writes nothing, a torn one leaves
      whatever was written. */
  datatype Copy = Whole | Unopened | Torn(left: Deb)

  /** The package's files are removed first. */
  function Cleared(to: Files, base: string): Files
  {
    if IndexOf(base, '_') > 0 then map f | f in to && !SamePackage(f, Key(base)) :: to[f] else to
  }

  /** One turn of the copy loop, whole or not. */
  function CopyTurn(to: Files, base: string, deb: Deb, copy: Copy): Files
  {
    match copy
    case Whole => CopyOne(to, base, deb)
    case Unopened => Cleared(to, base)
    case Torn(left) => Cleared(to, base)[base := left]
  }

  /** One turn of the copy loop: remove the package's other files, then write this one. */
  function CopyOne(to: Files, base: string, deb: Deb): Files
  {
    (if IndexOf(base, '_') > 0 then map f | f in to && !SamePackage(f, Key(base)) :: to[f] else to)[base := deb]
  }

  function CopyAll(names: seq<string>, from: Files, to: Files): Files
    requires forall k :: 0 <= k < |names| ==> names[k] in from
  {
    if names == [] then to else CopyOne(CopyAll(names[..|names| - 1], from, to), names[|names| - 1], from[names[|names| - 1]])
  }

  class Directory {
    var files: Files

    constructor (files: Files)
      ensures this.files == files
    {
      this.files := files;
    }
  }

  method ReplacePackage(to: Directory, base: string, deb: Deb, copy: Copy)
    modifies to
    ensures to.files == CopyTurn(old(to.files), base, deb, copy)
  {
    var split := IndexOf(base, '_');
    if split > 0 {
      to.files := map f | f in to.files && !SamePackage(f, base[..split + 1]) :: to.files[f];
    }
    if copy.Unopened? { return; }
    to.files := to.files[base := if copy.Whole? then deb else copy.left];
  }

  /** The files before the first that fails have been replaced, and of that one's package the
      old files are gone. */
  method CopyDebs(from: Files, to: Directory, copied: string -> Copy) returns (ok: bool, ghost names: seq<string>, ghost at: nat)
    modifies to
    ensures StrictlySorted(names) && forall f :: f in names <==> f in from && IsCloudless(f)
    ensures ok <==> names != [] && forall k :: 0 <= k < |names| ==> copied(names[k]) == Whole
    ensures ok ==> to.files == CopyAll(names, from, old(to.files))
    ensures at <= |names| && forall k :: 0 <= k < at ==> copied(names[k]) == Whole
    ensures at < |names| ==> copied(names[at]) != Whole
                             && to.files == CopyTurn(CopyAll(names[..at], from, old(to.files)), names[at], from[names[at]], copied(names[at]))
    ensures names == [] ==> to.files == old(to.files)
  {
    var debs := SortedKeys(set f | f in from && IsCloudless(f));
    names := debs;
    assert forall k :: 0 <= k < |debs| ==> debs[k] in debs;
    at := 0;
    if |debs| == 0 { return false, names, at; }
    for i := 0 to |debs|
      invariant to.files == CopyAll(debs[..i], from, old(to.files))
      invariant at == i && forall k :: 0 <= k < i ==> copied(debs[k]) == Whole
    {
      ReplacePackage(to, debs[i], from[debs[i]], copied(debs[i]));
      if copied(debs[i]) != Whole { return false, names, at; }
      at := i + 1;
      assert debs[..i + 1][..i] == debs[..i];
    }
    assert debs[..|debs|] == debs;
    ok := true;
  }

  /** A copy touches no files but those of the packages it comes to. */
  lemma {:induction false} CopyAllKeepsOthers(names: seq<string>, from: Files, to: Files, f: string)
    requires forall k :: 0 <= k < |names| ==> names[k] in from
    requires forall k :: 0 <= k < |names| ==> f != names[k] && !(IndexOf(names[k], '_') > 0 && SamePackage(f, Key(names[k])))
    ensures f in CopyAll(names, from, to) <==> f in to
    ensures f in to ==> CopyAll(names, from, to)[f] == to[f]
  {
    if names != [] { CopyAllKeepsOthers(names[..|names| - 1], from, to, f); }
  }

  lemma SuffixNeedsRoom(name: string, key: string)
    requires key <= name && HasSuffix(name, ".deb") && key != [] && key[|key| - 1] == '_'
    ensures SamePackage(name, key)
  {
    assert name[|key| - 1] == '_';
    assert forall i :: |name| - 4 <= i < |name| ==> name[i] == ".deb"[i - (|name| - 4)];
  }

  lemma IndexOfPrefix(name: string, c: char, i: nat)
    requires i < |name| && name[i] == c && c !in name[..i]
    ensures IndexOf(name, c) == i
  {
    var j := IndexOf(name, c);
    assert name[i] in name;
    assert forall k :: 0 <= k < i ==> name[..i][k] == name[k];
    assert forall k :: 0 <= k < j ==> name[..j][k] == name[k];
  }

  /** For names that carry an underscore, matching a package's pattern is having its key. */
  lemma SamePackageIsSameKey(name: string, base: string)
    requires IsCloudless(base) && HasSuffix(name, ".deb") && IndexOf(base, '_') > 0
    ensures SamePackage(name, Key(base)) <==> Key(name) == Key(base)
  {
    var key, i := Key(base), IndexOf(base, '_');
    if key <= name {
      assert name[i] == key[i] == '_' && name[..i] == key[..i] == base[..i];
      IndexOfPrefix(name, '_', i);
      SuffixNeedsRoom(name, key);
    }
    if Key(name) == key { SuffixNeedsRoom(name, key); }
  }

  ghost predicate OnePerPackage(files: Files)
  {
    forall f, g :: f in files && g in files && files[f].pkg == files[g].pkg ==> f == g
  }

  /** Every file is a .deb named `<package>_...`, and no package has two. */
  ghost predicate WellFormed(files: Files)
  {
    && (forall f :: f in files ==> IsCloudless(f) && IndexOf(f, '_') > 0 && Key(f) == files[f].pkg + "_")
    && OnePerPackage(files)
  }

  lemma SamePackageByName(name: string, p: string, base: string, q: string)
    requires IsCloudless(name) && Key(name) == p + "_"
    requires IsCloudless(base) && IndexOf(base, '_') > 0 && Key(base) == q + "_"
    ensures SamePackage(name, Key(base)) <==> p == q
  {
    SamePackageIsSameKey(name, base);
    assert (p + "_")[..|p|] == p && (q + "_")[..|q|] == q;
  }

  /** The file patterns of `from` pick out packages correctly among the given files. */
  ghost predicate Recognizes(from: Files, files: Files)
  {
    forall b, f :: b in from && f in files ==> IndexOf(b, '_') > 0 && (SamePackage(f, Key(b)) <==> files[f].pkg == from[b].pkg)
  }

  lemma WellFormedNamesAreRecognized(from: Files, files: Files)
    requires WellFormed(from) && WellFormed(files)
    ensures Recognizes(from, files)
  {
    forall b, f | b in from && f in files
      ensures IndexOf(b, '_') > 0 && (SamePackage(f, Key(b)) <==> files[f].pkg == from[b].pkg)
    {
      SamePackageByName(f, files[f].pkg, b, from[b].pkg);
    }
  }

  function Pkgs(names: seq<string>, from: Files): set<string>
    requires forall k :: 0 <= k < |names| ==> names[k] in from
  {
    set k | 0 <= k < |names| :: from[names[k]].pkg
  }

  /** What the target looks like once the files `names` have been copied into it. */
  ghost predicate Merged(names: seq<string>, from: Files, to: Files, r: Files)
    requires forall k :: 0 <= k < |names| ==> names[k] in from
  {
    && (forall f :: f in r <==> f in names || (f in to && to[f].pkg !in Pkgs(names, from)))
    && (forall f :: f in r ==> r[f] == if f in names then from[f] else to[f])
  }

  /** A copied file replaces those of its package, among the ones there so far. */
  lemma OneCopied(init: seq<string>, base: string, from: Files, to: Files, before: Files)
    requires Recognizes(from, from) && Recognizes(from, to) && base in from
    requires (forall k :: 0 <= k < |init| ==> init[k] in from) && Merged(init, from, to, before)
    ensures var r := CopyOne(before, base, from[base]);
            && (forall f :: f in r <==> f == base || (f in before && before[f].pkg != from[base].pkg))
            && (forall f :: f in r ==> r[f] == if f == base then from[base] else before[f])
  {
    forall f | f in before ensures SamePackage(f, Key(base)) <==> before[f].pkg == from[base].pkg {}
  }

  lemma MergeOneMore(init: seq<string>, base: string, from: Files, to: Files, before: Files, r: Files)
    requires forall k :: 0 <= k < |init| ==> init[k] in from
    requires base in from && OnePerPackage(from)
    requires Merged(init, from, to, before)
    requires forall f :: f in r <==> f == base || (f in before && before[f].pkg != from[base].pkg)
    requires forall f :: f in r ==> r[f] == if f == base then from[base] else before[f]
    ensures Merged(init + [base], from, to, r)
  {
    var names := init + [base];
    assert Pkgs(names, from) == Pkgs(init, from) + {from[base].pkg} by {
      assert forall k :: 0 <= k < |init| ==> init[k] == names[k];
      assert names[|init|] == base;
    }
  }

  lemma {:induction false} CopyMerges(names: seq<string>, from: Files, to: Files)
    requires Recognizes(from, from) && Recognizes(from, to)
    requires OnePerPackage(from)
    requires forall k :: 0 <= k < |names| ==> names[k] in from
    ensures Merged(names, from, to, CopyAll(names, from, to))
  {
    if names == [] {
      assert Pkgs(names, from) == {};
    } else {
      var init, base := names[..|names| - 1], names[|names| - 1];
      var before := CopyAll(init, from, to);
      CopyMerges(init, from, to);
      OneCopied(init, base, from, to, before);
      MergeOneMore(init, base, from, to, before, CopyAll(names, from, to));
      assert names == init + [base];
    }
  }

  /** After a complete copy each copied package is represented by exactly the copied file,
      whatever versions the target had, and every other package's file is untouched. */
  lemma CopyReplacesPackages(names: seq<string>, from: Files, to: Files)
    requires WellFormed(from) && WellFormed(to)
    requires forall k :: 0 <= k < |names| ==> names[k] in from
    ensures Merged(names, from, to, CopyAll(names, from, to)) && WellFormed(CopyAll(names, from, to))
  {
    WellFormedNamesAreRecognized(from, from);
    WellFormedNamesAreRecognized(from, to);
    CopyMerges(names, from, to);
    CopiedStaysWellFormed(names, from, to, CopyAll(names, from, to));
  }

  lemma CopiedIsOnePerPackage(names: seq<string>, from: Files, to: Files, r: Files)
    requires OnePerPackage(from) && OnePerPackage(to)
    requires forall k :: 0 <= k < |names| ==> names[k] in from
    requires Merged(names, from, to, r)
    ensures OnePerPackage(r)
  {
    forall f, g | f in r && g in r && r[f].pkg == r[g].pkg ensures f == g {
      assert f in names ==> from[f].pkg in Pkgs(names, from);
      assert g in names ==> from[g].pkg in Pkgs(names, from);
    }
  }

  lemma CopiedStaysWellFormed(names: seq<string>, from: Files, to: Files, r: Files)
    requires WellFormed(from) && WellFormed(to)
    requires forall k :: 0 <= k < |names| ==> names[k] in from
    requires Merged(names, from, to, r)
    ensures WellFormed(r)
  {
    CopiedIsOnePerPackage(names, from, to, r);
    forall f | f in r ensures IsCloudless(f) && IndexOf(f, '_') > 0 && Key(f) == r[f].pkg + "_" {
      assert (f in from && r[f] == from[f]) || (f in to && r[f] == to[f]);
    }
  }

  // ---------------------------------------------------------------- one update run

  function Packages(files: Files): set<string>
  {
    set f | f in files :: files[f].pkg
  }

  ghost function VersionOf(files: Files, p: string): (v: string)
    requires p in Packages(files)
    ensures OnePerPackage(files) ==> forall f :: f in files && files[f].pkg == p ==> files[f].version == v
  {
    var f :| f in files && files[f].pkg == p;
    files[f].version
  }

  /** The version each package has in a directory. */
  ghost function Versions(files: Files): map<string, string>
  {
    map p | p in Packages(files) :: VersionOf(files, p)
  }

  lemma MergedVersions(from: Files, to: Files, r: Files)
    requires OnePerPackage(from) && OnePerPackage(to) && OnePerPackage(r)
    requires forall f :: f in from && f in to ==> from[f].pkg == to[f].pkg
    requires forall f :: f in r <==> f in from || (f in to && to[f].pkg !in Packages(from))
    requires forall f :: f in r ==> r[f] == if f in from then from[f] else to[f]
    ensures Versions(r) == Versions(to) + Versions(from)
  {
    var sum := Versions(to) + Versions(from);
    forall p | p in Packages(r) ensures p in sum && VersionOf(r, p) == sum[p] {
      var f :| f in r && r[f].pkg == p;
    }
    forall p | p in sum ensures p in Packages(r) {
      if p in Packages(from) {
        var f :| f in from && from[f].pkg == p;
        assert f in r;
      } else {
        var f :| f in to && to[f].pkg == p;
        assert f in r;
      }
    }
  }

  lemma NameTellsPackage(f: string, from: Files, to: Files)
    requires WellFormed(from) && WellFormed(to) && f in from && f in to
    ensures from[f].pkg == to[f].pkg
  {
    assert (from[f].pkg + "_")[..|from[f].pkg|] == from[f].pkg;
    assert (to[f].pkg + "_")[..|to[f].pkg|] == to[f].pkg;
  }

  lemma PkgsOfAll(names: seq<string>, from: Files)
    requires forall f :: f in names <==> f in from
    requires forall k :: 0 <= k < |names| ==> names[k] in from
    ensures Pkgs(names, from) == Packages(from)
  {
    forall p | p in Packages(from) ensures p in Pkgs(names, from) {
      var f :| f in from && from[f].pkg == p;
      var k :| 0 <= k < |names| && names[k] == f;
    }
  }

  lemma NothingBefore(from: Files)
    ensures Versions(map[]) + Versions(from) == Versions(from)
  {
    assert Packages(map[]) == {};
  }

  lemma VersionsAfterCopy(names: seq<string>, from: Files, to: Files)
    requires WellFormed(from) && WellFormed(to)
    requires forall f :: f in names <==> f in from
    requires forall k :: 0 <= k < |names| ==> names[k] in from
    ensures WellFormed(CopyAll(names, from, to))
    ensures Versions(CopyAll(names, from, to)) == Versions(to) + Versions(from)
  {
    CopyReplacesPackages(names, from, to);
    PkgsOfAll(names, from);
    forall f | f in from && f in to ensures from[f].pkg == to[f].pkg { NameTellsPackage(f, from, to); }
    MergedVersions(from, to, CopyAll(names, from, to));
  }

  datatype Status = NotConfigured | UpToDate | Failed | Updated

  /** What a run meets. `upgrades` are the candidate versions, `staged` the downloaded
      files; a package operation that fails changes nothing. */
  datatype Answers = Answers(
    configured: bool, refreshed: bool, inspected: bool, upgrades: map<string, string>, expected: bool, planSafe: bool,
    snapshotOk: bool, downloaded: bool, staged: Files, stagedOk: bool, captured: bool, busy: bool,
    installOk: bool, probeOk: bool, rollbackOk: bool, probeAgainOk: bool, retainOk: bool)

  ghost predicate FromRepository(a: Answers)
  {
    WellFormed(a.staged) && Versions(a.staged) == a.upgrades
  }

  /** The installed versions, and the versions kept for recovery. */
  datatype Machine = Machine(installed: map<string, string>, recovery: map<string, string>)

  predicate Installs(force: bool, a: Answers)
  {
    && a.configured && a.refreshed && a.inspected && a.upgrades != map[] && (force ==> a.expected) && a.planSafe
    && a.downloaded && a.stagedOk && a.captured && (force ==> a.busy) && a.installOk
  }

  predicate RollsBack(m: Machine, force: bool, a: Answers)
  {
    (force || !a.probeOk) && a.snapshotOk && m.recovery != map[] && a.rollbackOk
  }

  function RunOnce(m: Machine, force: bool, a: Answers): (Machine, Status)
  {
    if !a.configured then (m, NotConfigured)
    else if a.refreshed && a.inspected && a.upgrades == map[] then (m, UpToDate)
    else if !Installs(force, a) then (m, Failed)
    else
      var after := m.(installed := m.installed + a.upgrades);
      if force || !a.probeOk then
        (if RollsBack(m, force, a) then after.(installed := after.installed + m.recovery) else after, Failed)
      else if a.retainOk then (after.(recovery := m.recovery + a.upgrades), Updated)
      else (after, Failed)
  }

  /** dpkg sets each file's package to that file's version. */
  function Installed(debs: seq<string>, files: Files, before: map<string, string>): map<string, string>
    requires forall f :: f in debs ==> f in files
  {
    if debs == [] then before
    else
      var last := files[debs[|debs| - 1]];
      Installed(debs[..|debs| - 1], files, before)[last.pkg := last.version]
  }

  lemma {:induction false} InstalledUpTo(debs: seq<string>, files: Files, before: map<string, string>)
    requires OnePerPackage(files) && forall f :: f in debs ==> f in files
    ensures var r := Installed(debs, files, before);
            && (forall p :: p in r <==> p in before || exists f :: f in debs && files[f].pkg == p)
            && (forall f :: f in debs ==> files[f].pkg in r && r[files[f].pkg] == files[f].version)
            && (forall p :: p in before && !(exists f :: f in debs && files[f].pkg == p) ==> r[p] == before[p])
  {
    if debs != [] {
      var init, last := debs[..|debs| - 1], debs[|debs| - 1];
      assert debs == init + [last];
      InstalledUpTo(init, files, before);
      forall f | f in debs ensures Installed(debs, files, before)[files[f].pkg] == files[f].version {
        if f in init && files[f].pkg == files[last].pkg { assert f == last; }
      }
    }
  }

  lemma InstallAll(debs: seq<string>, files: Files, before: map<string, string>)
    requires OnePerPackage(files) && forall f :: f in debs <==> f in files
    ensures Installed(debs, files, before) == before + Versions(files)
  {
    InstalledUpTo(debs, files, before);
    var r, sum := Installed(debs, files, before), before + Versions(files);
    forall p | p in sum ensures p in r && r[p] == sum[p] {
      if p in Packages(files) {
        var f :| f in files && files[f].pkg == p;
        assert f in debs;
      }
    }
    forall p | p in r ensures p in sum {
      if f :| f in debs && files[f].pkg == p { assert p in Packages(files); }
    }
  }

  class Updater {
    var installed: map<string, string>
    const current: Directory

    constructor (installed: map<string, string>, current: Directory)
      ensures this.installed == installed && this.current == current
    {
      this.installed, this.current := installed, current;
    }

    ghost function State(): Machine
      reads this, current
    {
      Machine(installed, Versions(current.files))
    }

    /** Copies all package files, or leaves the target as it was. */
    method CopyWhole(from: Files, to: Directory, works: bool) returns (ok: bool)
      requires WellFormed(from) && WellFormed(to.files)
      modifies to
      ensures WellFormed(to.files)
      ensures ok <==> works && Versions(from) != map[]
      ensures Versions(to.files) == if ok then Versions(old(to.files)) + Versions(from) else Versions(old(to.files))
    {
      ok := false;
      if works {
        ghost var before := to.files;
        ghost var names, at;
        ok, names, at := CopyDebs(from, to, _ => Whole);
        assert forall f :: f in names <==> f in from;
        if names == [] {
          assert Versions(from) == map[];
        } else {
          assert names[0] in names;
          assert from[names[0]].pkg in Versions(from);
          assert forall k :: 0 <= k < |names| ==> names[k] in names;
          VersionsAfterCopy(names, from, before);
        }
      }
    }

    /** Installs every file of the directory in one dpkg call. */
    method Rollback(dir: Directory, works: bool) returns (ok: bool)
      requires OnePerPackage(dir.files)
      modifies this
      ensures ok <==> works && dir.files != map[]
      ensures installed == if ok then old(installed) + Versions(dir.files) else old(installed)
    {
      if dir.files == map[] || !works { return false; }
      var debs := SortedKeys(set f | f in dir.files);
      InstallAll(debs, dir.files, installed);
      assert forall k :: 0 <= k < |debs| ==> debs[k] in debs;
      installed := Installed(debs, dir.files, installed);
      ok := true;
    }

    /** From the install on: probe, then keep the new packages or put the old ones back. */
    method InstallAndSettle(force: bool, a: Answers, rollbackAvailable: bool, rollbackDir: Directory, staged: Files)
      returns (status: Status)
      requires Installs(force, a) && WellFormed(current.files) && WellFormed(staged) && Versions(staged) == a.upgrades
      requires OnePerPackage(rollbackDir.files) && rollbackDir != current
      requires rollbackAvailable <==> a.snapshotOk && State().recovery != map[]
      requires rollbackAvailable ==> Versions(rollbackDir.files) == State().recovery
      modifies this, current
      ensures WellFormed(current.files)
      ensures (State(), status) == RunOnce(old(State()), force, a)
    {
      installed := installed + a.upgrades;
      if force || !a.probeOk {
        if rollbackAvailable {
          assert rollbackDir.files != map[];
          var _ := Rollback(rollbackDir, a.rollbackOk);
        }
        return Failed; // whether or not the rollback worked and the probe after it passes
      }
      var retained := CopyWhole(staged, current, a.retainOk);
      status := if retained then Updated else Failed;
    }

    method CopyToNew(from: Files, works: bool) returns (dir: Directory, ok: bool)
      requires WellFormed(from)
      ensures fresh(dir) && WellFormed(dir.files)
      ensures ok <==> works && Versions(from) != map[]
      ensures ok ==> Versions(dir.files) == Versions(from)
    {
      dir := new Directory(map[]);
      NothingBefore(from);
      ok := CopyWhole(from, dir, works);
    }

    method ApplyWithMode(force: bool, a: Answers) returns (status: Status)
      requires WellFormed(current.files) && FromRepository(a)
      modifies this, current
      ensures WellFormed(current.files)
      ensures (State(), status) == RunOnce(old(State()), force, a)
    {
      if !a.configured { return NotConfigured; }
      if !a.refreshed || !a.inspected { return Failed; }
      if a.upgrades == map[] { return UpToDate; }
      if (force && !a.expected) || !a.planSafe { return Failed; }
      var rollbackDir, rollbackAvailable := CopyToNew(current.files, a.snapshotOk);
      if !a.downloaded { return Failed; }
      var stagedDir, staged := CopyToNew(a.staged, a.stagedOk);
      if !staged || !a.captured || (force && !a.busy) || !a.installOk { return Failed; }
      status := InstallAndSettle(force, a, rollbackAvailable, rollbackDir, stagedDir.files);
    }
  }

  // ---------------------------------------------------------------- over many runs

  /** Every package kept for recovery has its installed version. */
  ghost predicate InSync(m: Machine)
  {
    forall p :: p in m.recovery ==> p in m.installed && m.installed[p] == m.recovery[p]
  }

  predicate Upgrades(m: Machine, a: Answers)
  {
    forall p :: p in a.upgrades ==> p in m.installed && a.upgrades[p] != m.installed[p]
  }

  /** The run installed, and neither kept the new packages nor put the old ones back. */
  predicate Stranded(m: Machine, force: bool, a: Answers)
  {
    Installs(force, a) && !RollsBack(m, force, a) && (force || !a.probeOk || !a.retainOk)
  }

  /** A run leaves the recovery directory in step exactly when it was not stranded over a
      package that the directory holds. */
  lemma RunKeepsInSync(m: Machine, force: bool, a: Answers)
    requires InSync(m) && Upgrades(m, a)
    ensures InSync(RunOnce(m, force, a).0) <==> !(Stranded(m, force, a) && a.upgrades.Keys * m.recovery.Keys != {})
  {
    var (after, status) := RunOnce(m, force, a);
    if Stranded(m, force, a) {
      if a.upgrades.Keys * m.recovery.Keys != {} {
        var p :| p in a.upgrades.Keys * m.recovery.Keys;
        assert after.installed[p] == a.upgrades[p] != m.recovery[p];
      } else {
        forall p | p in after.recovery ensures p in after.installed && after.installed[p] == after.recovery[p] {
          assert p !in a.upgrades.Keys * m.recovery.Keys;
        }
      }
    }
  }

  /** A run that failed its probe and rolled back ends in the versions it started with
      exactly when every upgraded package was covered; what was not covered stays new. */
  lemma RollbackRestores(m: Machine, force: bool, a: Answers)
    requires InSync(m) && Upgrades(m, a) && Installs(force, a) && RollsBack(m, force, a)
    ensures var (after, status) := RunOnce(m, force, a);
            && status == Failed && after.recovery == m.recovery
            && (after.installed == m.installed <==> a.upgrades.Keys <= m.recovery.Keys)
            && after.installed == m.installed + (a.upgrades - m.recovery.Keys)
  {
    var after := RunOnce(m, force, a).0.installed;
    assert after == m.installed + (a.upgrades - m.recovery.Keys);
    if p :| p in a.upgrades.Keys && p !in m.recovery.Keys {
      assert after[p] == a.upgrades[p] != m.installed[p];
    }
  }

  /** A run ends as updated exactly when there is something to install, nothing on the way
      fails, and no rollback is asked for; then the candidates are installed and they are what
      the next run would roll back to. */
  lemma UpdatedMeansProbed(m: Machine, force: bool, a: Answers)
    ensures var (after, status) := RunOnce(m, force, a);
            && (status == Updated ==> a.probeOk && !force && after == Machine(m.installed + a.upgrades, m.recovery + a.upgrades))
            && (status == Updated <==>
                  !force && a.configured && a.refreshed && a.inspected && a.upgrades != map[] && a.planSafe && a.downloaded && a.stagedOk
                  && a.captured && a.installOk && a.probeOk && a.retainOk)
            && (status == NotConfigured <==> !a.configured)
            && (status == UpToDate <==> a.configured && a.refreshed && a.inspected && a.upgrades == map[])
            && (status != Updated ==> after.recovery == m.recovery)
            && (status == NotConfigured || status == UpToDate ==> after == m)
  {}

  function RunAll(m: Machine, runs: seq<(bool, Answers)>): Machine
    decreases |runs|
  {
    if runs == [] then m else RunAll(RunOnce(m, runs[0].0, runs[0].1).0, runs[1..])
  }

  ghost predicate NeverStranded(m: Machine, runs: seq<(bool, Answers)>)
    decreases |runs|
  {
    runs != [] ==>
    && Upgrades(m, runs[0].1)
    && !(Stranded(m, runs[0].0, runs[0].1) && runs[0].1.upgrades.Keys * m.recovery.Keys != {})
    && NeverStranded(RunOnce(m, runs[0].0, runs[0].1).0, runs[1..])
  }

  /** After any history without such a run, a covered rollback restores exactly. */
  lemma {:induction false} HistoryKeepsInSync(m: Machine, runs: seq<(bool, Answers)>, force: bool, a: Answers)
    requires InSync(m) && NeverStranded(m, runs)
    ensures var now := RunAll(m, runs);
            && InSync(now)
            && (Upgrades(now, a) && Installs(force, a) && RollsBack(now, force, a) && a.upgrades.Keys <= now.recovery.Keys ==>
                  RunOnce(now, force, a).0 == now)
    decreases |runs|
  {
    if runs == [] {
      if Upgrades(m, a) && Installs(force, a) && RollsBack(m, force, a) { RollbackRestores(m, force, a); }
    } else {
      RunKeepsInSync(m, runs[0].0, runs[0].1);
      HistoryKeepsInSync(RunOnce(m, runs[0].0, runs[0].1).0, runs[1..], force, a);
    }
  }

  /** The staged files of an update of one package. */
  function OneFile(version: string): Files
  {
    map["cloudless-p" + "_" + version + ".deb" := Deb("cloudless-p", version)]
  }

  lemma NamedByPackage(name: string, package: string, rest: string)
    requires name == package + "_" + rest && package != "" && '_' !in package
    ensures IndexOf(name, '_') == |package| && Key(name) == package + "_"
  {
    assert name == package + ("_" + rest) && name[..|package|] == package && name[|package|] == '_';
    IndexOfPrefix(name, '_', |package|);
    assert name[..|package| + 1] == package + "_";
  }

  lemma AloneIsWellFormed(name: string, deb: Deb)
    requires IsCloudless(name) && IndexOf(name, '_') > 0 && Key(name) == deb.pkg + "_"
    ensures WellFormed(map[name := deb]) && Versions(map[name := deb]) == map[deb.pkg := deb.version]
  {
    var files := map[name := deb];
    assert name in files && files[name] == deb;
    assert Packages(files) == {deb.pkg};
    assert OnePerPackage(files);
    assert VersionOf(files, deb.pkg) == deb.version;
  }

  lemma OneFileIsWellFormed(version: string)
    ensures WellFormed(OneFile(version)) && Versions(OneFile(version)) == map["cloudless-p" := version]
  {
    var package := "cloudless-p";
    var name := package + "_" + version + ".deb";
    assert '_' !in package;
    assert IsCloudless(name) by { assert name[|name| - 4..] == ".deb" && "cloudless-" <= package <= name; }
    NamedByPackage(name, package, version + ".deb");
    assert name == package + "_" + (version + ".deb");
    AloneIsWellFormed(name, Deb(package, version));
  }

  /** An update of one package to `version`; everything works but what the caller changes. */
  function OneUpgrade(p: string, version: string, staged: Files): Answers
  {
    Answers(true, true, true, map[p := version], true, true, true, true, staged, true, true, true, true, true, true, true, true)
  }

  lemma StrandedSteps(p: string, two: Files, three: Files)
    ensures var start := Machine(map[p := "1"], map[p := "1"]);
            var before := Machine(map[p := "2"], map[p := "1"]);
            && RunOnce(start, false, OneUpgrade(p, "2", two).(retainOk := false)) == (before, Failed)
            && RunOnce(before, false, OneUpgrade(p, "3", three).(probeOk := false)) == (start, Failed)
  {
    var start := Machine(map[p := "1"], map[p := "1"]);
    assert p in map[p := "2"] && p in map[p := "3"] && p in start.recovery;
    assert start.installed + map[p := "2"] == map[p := "2"];
    assert map[p := "2"] + map[p := "3"] + start.recovery == start.installed;
  }

  /** The failing family in one run pair: version 2 is installed and probed but not kept
      for recovery; the next update fails its probe and "rolls back" to version 1. */
  lemma StrandedExample()
    ensures var p := "cloudless-p";
            var start, before := Machine(map[p := "1"], map[p := "1"]), Machine(map[p := "2"], map[p := "1"]);
            var good := OneUpgrade(p, "2", OneFile("2")).(retainOk := false);
            var bad := OneUpgrade(p, "3", OneFile("3")).(probeOk := false);
            && FromRepository(good) && FromRepository(bad) && InSync(start)
            && RunOnce(start, false, good) == (before, Failed) && RunOnce(before, false, bad) == (start, Failed)
  {
    OneFileIsWellFormed("2");
    OneFileIsWellFormed("3");
    StrandedSteps("cloudless-p", OneFile("2"), OneFile("3"));
  }

  // ---------------------------------------------------------------- the continuity probe

  datatype Engine = Engine(ready: bool, unloaded: bool, active: string)

  datatype Operation = Operation(id: string, kind: string, phase: string)

  /** What must still be there after the update; an empty engine means none was ready. */
  datatype Workload = Workload(readyEngine: string, operations: seq<string>)

  predicate NeedsContinuity(o: Operation)
  {
    !(o.kind == "check" && o.phase == "prepared") && o.phase !in {"active", "stopped", "failed", "aborted", ""}
  }

  method CaptureWorkload(engineRead: bool, engine: Engine, recipesRead: bool, operations: seq<Operation>)
    returns (snapshot: Option<Workload>)
    ensures snapshot.Some? <==> engineRead && recipesRead && (engine.ready && !engine.unloaded ==> TrimSpace(engine.active) != "")
    ensures snapshot.Some? ==>
              && snapshot.value.readyEngine == (if engine.ready && !engine.unloaded then TrimSpace(engine.active) else "")
              && (forall id :: id in snapshot.value.operations <==>
                    exists k :: 0 <= k < |operations| && operations[k].id == id && NeedsContinuity(operations[k]))
  {
    if !engineRead || !recipesRead { return None; }
    var readyEngine := "";
    if engine.ready && !engine.unloaded {
      readyEngine := TrimSpace(engine.active);
      if readyEngine == "" { return None; }
    }
    var ids: seq<string> := [];
    for i := 0 to |operations|
      invariant forall id :: id in ids <==> exists k :: 0 <= k < i && operations[k].id == id && NeedsContinuity(operations[k])
    {
      if NeedsContinuity(operations[i]) { ids := ids + [operations[i].id]; }
    }
    snapshot := Some(Workload(readyEngine, ids));
  }

  /** The journal's phase for an id: its last entry wins. */
  function PhaseOf(operations: seq<Operation>, id: string): Option<string>
  {
    if operations == [] then None
    else
      var last := operations[|operations| - 1];
      if last.id == id then Some(last.phase) else PhaseOf(operations[..|operations| - 1], id)
  }

  predicate Survives(operations: seq<Operation>, id: string)
  {
    PhaseOf(operations, id).Some? && PhaseOf(operations, id).value !in {"failed", "aborted", "stopped"}
  }

  method WorkloadContinuity(workload: Workload, engineRead: bool, engine: Engine, recipesRead: bool, operations: seq<Operation>)
    returns (ok: bool)
    ensures ok <==>
              && engineRead
              && (workload.readyEngine != "" ==> engine.ready && !engine.unloaded && engine.active == workload.readyEngine)
              && (workload.operations != [] ==> recipesRead)
              && (forall id :: id in workload.operations ==> Survives(operations, id))
  {
    if !engineRead { return false; }
    if workload.readyEngine != "" && (!engine.ready || engine.unloaded || engine.active != workload.readyEngine) { return false; }
    if workload.operations == [] { return true; }
    if !recipesRead { return false; }
    var byID: map<string, string> := map[];
    for i := 0 to |operations|
      invariant forall id :: id in byID <==> PhaseOf(operations[..i], id).Some?
      invariant forall id :: id in byID ==> PhaseOf(operations[..i], id) == Some(byID[id])
    {
      assert operations[..i + 1][..i] == operations[..i];
      byID := byID[operations[i].id := operations[i].phase];
    }
    assert operations[..|operations|] == operations;
    for k := 0 to |workload.operations|
      invariant forall j :: 0 <= j < k ==> Survives(operations, workload.operations[j])
    {
      var id := workload.operations[k];
      if id !in byID || byID[id] == "failed" || byID[id] == "aborted" || byID[id] == "stopped" {
        assert !Survives(operations, id);
        return false;
      }
    }
    ok := true;
  }
}

/** The Models directory as a view of the managed cache: orphans go, stale views are
    replaced, the user's own entries stay. Every effect may fail or be cut short, and the
    run stops there, so the states these methods can return in are the crash points. */
module ModelViews {
  import opened Ordering

  datatype Option<T> = None | Some(value: T)

  /** A directory entry: a managed view carries a revision marker; anything else is the
      user's, or a half-built view under a temporary name. */
  datatype Entry = Plain(data: string) | View(marker: string, files: map<string, string>)

  type Directory = map<string, Entry>

  datatype Snapshot = Snapshot(name: string, revision: string, files: map<string, string>)

  const TEMPORARY := ".materializing-"

  const SUFFIX := "-Cloudless"

  predicate IsTemporary(name: string)
  {
    TEMPORARY <= name
  }

  predicate Expected(snapshots: map<string, Snapshot>, name: string)
  {
    exists s :: s in snapshots && (name == s || name == s + SUFFIX)
  }

  /** A view is expected under the name of a snapshot, and under that name with the suffix. */
  lemma ExpectedExactly(snapshots: map<string, Snapshot>, name: string)
    ensures Expected(snapshots, name) <==>
            name in snapshots || (|name| >= 10 && name[|name| - 10..] == "-Cloudless" && name[..|name| - 10] in snapshots)
  {
    if s :| s in snapshots && name == s + SUFFIX {
      assert name[..|name| - 10] == s && name[|name| - 10..] == SUFFIX;
    }
    if |name| >= 10 && name[|name| - 10..] == "-Cloudless" { assert name == name[..|name| - 10] + SUFFIX; }
  }

  /** Names are what the snapshots are filed under, no name is temporary, and no name is
      another one plus the suffix. */
  ghost predicate Named(snapshots: map<string, Snapshot>)
  {
    && (forall s :: s in snapshots ==> snapshots[s].name == s && !IsTemporary(s) && !IsTemporary(s + SUFFIX))
    && (forall s, r :: s in snapshots && r in snapshots ==> s != r + SUFFIX)
  }

  predicate IsView(e: Directory, name: string)
  {
    name in e && e[name].View?
  }

  /** Where a snapshot's view goes. */
  function Destination(e: Directory, name: string): string
  {
    if name in e && e[name].Plain? then name + SUFFIX else name
  }

  /** How a removal ends. One that stops halfway leaves some files, and the marker or not. */
  datatype Removal = Removal(ok: bool, gone: bool, marker: bool, keeps: string -> bool)

  function Remains(before: Entry, r: Removal): Option<Entry>
  {
    if r.gone then None
    else if before.View? && r.marker then Some(View(before.marker, map f | f in before.files && r.keeps(f) :: before.files[f]))
    else Some(Plain("remains"))
  }

  /** How building under the temporary name ends; whatever is there then stays, or goes. */
  datatype Build = Build(ok: bool, left: Option<Entry>)

  /** How each effect of a run ends, by the name it works on. */
  datatype Answers = Answers(leftover: string -> Removal, stale: string -> Removal, temporary: string -> Removal,
                             build: string -> Build, publish: string -> Build)

  ghost predicate AllWork(a: Answers)
  {
    forall n :: a.leftover(n).ok && a.stale(n).ok && a.temporary(n).ok && a.build(n).ok && a.publish(n).ok
  }

  /** The run is over: nothing temporary, no unexpected view, and each snapshot has a view
      of its revision. */
  ghost predicate Settled(snapshots: map<string, Snapshot>, e: Directory)
  {
    && (forall n :: n in e ==> !IsTemporary(n))
    && (forall n :: IsView(e, n) ==> Expected(snapshots, n))
    && (forall s :: s in snapshots ==> HasView(e, snapshots[s]))
  }

  /** Neither an interrupted build nor an orphaned view. */
  predicate Stays(snapshots: map<string, Snapshot>, name: string, entry: Entry)
  {
    !IsTemporary(name) && (entry.View? ==> Expected(snapshots, name))
  }

  ghost predicate HasView(e: Directory, s: Snapshot)
  {
    IsView(e, Destination(e, s.name)) && e[Destination(e, s.name)].marker == s.revision
  }

  /** The view the user opens for `s` has the marker of its revision but not its files. */
  ghost predicate Incomplete(e: Directory, s: Snapshot)
  {
    HasView(e, s) && e[Destination(e, s.name)].files != s.files
  }

  ghost predicate UserEntriesKept(before: Directory, after: Directory)
  {
    forall n :: n in before && before[n].Plain? && !IsTemporary(n) ==> n in after && after[n] == before[n]
  }

  /** Each view in `after` was there before, or shows a snapshot in full, or is what a
      removal in this run left standing. */
  ghost predicate ViewsAccounted(snapshots: map<string, Snapshot>, before: Directory, after: Directory, torn: set<string>)
  {
    forall n :: IsView(after, n) && !IsTemporary(n) ==>
      || (n in before && before[n] == after[n])
      || (exists s :: s in snapshots && (n == s || n == s + SUFFIX) && after[n] == View(snapshots[s].revision, snapshots[s].files))
      || n in torn
  }

  /** The user holds both names a snapshot's view could have. */
  predicate Reserved(e: Directory, name: string)
  {
    name in e && e[name].Plain? && name + SUFFIX in e && e[name + SUFFIX].Plain?
  }

  /** What `Materialize` promises about the directory; `cut` are the names at which it
      left a removal unfinished. */
  ghost predicate Materialized(s: Snapshot, before: Directory, after: Directory, cut: set<string>, ok: bool)
  {
    var d := Destination(before, s.name);
    && (forall n :: n != d && n != TEMPORARY + s.name ==> (n in after <==> n in before) && (n in after ==> after[n] == before[n]))
    && (d in before && before[d].Plain? ==> d in after && after[d] == before[d])
    && (d in after && d !in cut ==> (d in before && after[d] == before[d]) || after[d] == View(s.revision, s.files))
    && cut <= {d, TEMPORARY + s.name}
    && (ok ==> cut <= {TEMPORARY + s.name} && d in after)
    && (ok && !(IsView(before, d) && before[d].marker == s.revision) ==> after[d] == View(s.revision, s.files))
    && (ok && TEMPORARY + s.name !in before ==> TEMPORARY + s.name !in after && cut == {})
    && (IsView(before, d) && before[d].marker == s.revision ==> ok && after == before)
  }

  /** What holds between two snapshots of a run that started in `start`. */
  ghost predicate Progress(snapshots: map<string, Snapshot>, start: Directory, e: Directory)
  {
    && UserEntriesKept(start, e) && ViewsAccounted(snapshots, start, e, {})
    && (forall n :: n in e ==> Stays(snapshots, n, e[n]))
    && PlainFrom(start, e)
  }

  /** A run makes no entry of the user's own kind. */
  ghost predicate PlainFrom(start: Directory, e: Directory)
  {
    forall n :: n in e && e[n].Plain? ==> n in start && start[n] == e[n]
  }

  lemma ViewsStayAccounted(snapshots: map<string, Snapshot>, s: Snapshot, start: Directory, before: Directory, after: Directory,
                           cut: set<string>, ok: bool)
    requires Named(snapshots) && s.name in snapshots && snapshots[s.name] == s
    requires ViewsAccounted(snapshots, start, before, {}) && Materialized(s, before, after, cut, ok)
    ensures ViewsAccounted(snapshots, start, after, cut)
  {
    var d := Destination(before, s.name);
    assert d == s.name || d == s.name + SUFFIX;
    forall n | IsView(after, n) && !IsTemporary(n) && n !in cut
      ensures (n in start && start[n] == after[n])
           || (exists r :: r in snapshots && (n == r || n == r + SUFFIX) && after[n] == View(snapshots[r].revision, snapshots[r].files))
    {
      if n == d && after[n] == View(s.revision, s.files) {
        assert s.name in snapshots;
      } else {
        assert n in before && before[n] == after[n] && IsView(before, n);
      }
    }
  }

  lemma MaterializeKeepsProgress(snapshots: map<string, Snapshot>, s: Snapshot, start: Directory, before: Directory, after: Directory,
                                 cut: set<string>, ok: bool)
    requires Named(snapshots) && s.name in snapshots && snapshots[s.name] == s
    requires Progress(snapshots, start, before) && Materialized(s, before, after, cut, ok)
    ensures UserEntriesKept(start, after) && ViewsAccounted(snapshots, start, after, cut)
    ensures ok ==> Progress(snapshots, start, after)
  {
    var d, t := Destination(before, s.name), TEMPORARY + s.name;
    assert IsTemporary(t) && !IsTemporary(d) && Expected(snapshots, d);
    ViewsStayAccounted(snapshots, s, start, before, after, cut, ok);
    assert t !in before;
    forall n | n in start && start[n].Plain? && !IsTemporary(n) ensures n in after && after[n] == start[n] {
      assert n in before && before[n] == start[n];
    }
    if ok {
      forall n | n in after
        ensures Stays(snapshots, n, after[n]) && (after[n].Plain? ==> n in start && start[n] == after[n])
      {
        if n != d { assert n in before && before[n] == after[n]; }
      }
      assert cut == {};
    }
  }

  lemma SameSuffix(a: string, b: string)
    requires a + SUFFIX == b + SUFFIX
    ensures a == b
  {
    assert (a + SUFFIX)[..|a|] == a && (b + SUFFIX)[..|b|] == b;
  }

  /** Work on one snapshot leaves alone what is shown for another. */
  lemma OtherViewsKept(snapshots: map<string, Snapshot>, s: Snapshot, r: Snapshot, before: Directory, after: Directory, cut: set<string>)
    requires Named(snapshots) && s.name in snapshots && r.name in snapshots && s.name != r.name
    requires Materialized(s, before, after, cut, true)
    ensures HasView(before, r) <==> HasView(after, r)
    ensures Incomplete(before, r) <==> Incomplete(after, r)
  {
    if s.name + SUFFIX == r.name + SUFFIX { SameSuffix(s.name, r.name); }
    assert IsTemporary(TEMPORARY + s.name);
    assert s.name in snapshots && r.name in snapshots;
  }

  /** After its turn a snapshot has its view, and that view is incomplete only if it was
      so before. */
  lemma OwnViewShown(snapshots: map<string, Snapshot>, s: Snapshot, before: Directory, after: Directory, cut: set<string>)
    requires Named(snapshots) && s.name in snapshots && snapshots[s.name] == s
    requires Materialized(s, before, after, cut, true)
    ensures HasView(after, s)
    ensures Incomplete(before, s) <==> Incomplete(after, s)
  {
    assert IsTemporary(TEMPORARY + s.name);
    var d := Destination(before, s.name);
    if d == s.name + SUFFIX { assert |s.name| < |d|; }
    assert Destination(after, s.name) == d;
  }

  /** The first `i` snapshots have their views. */
  ghost predicate Covered(snapshots: map<string, Snapshot>, names: seq<string>, i: nat, e: Directory)
  {
    forall k :: 0 <= k < |names| && k < i && names[k] in snapshots ==> HasView(e, snapshots[names[k]])
  }

  ghost predicate SameIncomplete(snapshots: map<string, Snapshot>, before: Directory, after: Directory)
  {
    forall s :: s in snapshots ==> (Incomplete(before, snapshots[s]) <==> Incomplete(after, snapshots[s]))
  }

  /** One more snapshot has its view, and the earlier ones keep theirs. */
  lemma CoveredGrows(snapshots: map<string, Snapshot>, names: seq<string>, i: nat, before: Directory, after: Directory, cut: set<string>)
    requires Named(snapshots) && StrictlySorted(names) && i < |names| && names[i] in snapshots
    requires Covered(snapshots, names, i, before) && Materialized(snapshots[names[i]], before, after, cut, true)
    ensures Covered(snapshots, names, i + 1, after) && SameIncomplete(snapshots, before, after)
  {
    var s := snapshots[names[i]];
    assert s.name in snapshots && s.name == names[i];
    OwnViewShown(snapshots, s, before, after, cut);
    forall k | 0 <= k < i && names[k] in snapshots ensures HasView(after, snapshots[names[k]]) {
      LessIrreflexive(names[i]);
      OtherViewsKept(snapshots, s, snapshots[names[k]], before, after, cut);
    }
    forall r | r in snapshots ensures Incomplete(before, snapshots[r]) <==> Incomplete(after, snapshots[r]) {
      if r != s.name { OtherViewsKept(snapshots, s, snapshots[r], before, after, cut); }
    }
  }

  lemma SweepingShowsTheSame(snapshots: map<string, Snapshot>, before: Directory, after: Directory)
    requires Named(snapshots)
    requires forall n :: n in before && Stays(snapshots, n, before[n]) ==> n in after && after[n] == before[n]
    requires forall n :: n in after ==> n in before && after[n] == before[n]
    ensures SameIncomplete(snapshots, before, after)
  {
    forall s | s in snapshots ensures Incomplete(before, snapshots[s]) <==> Incomplete(after, snapshots[s]) {
      var n := snapshots[s].name;
      assert Expected(snapshots, n) && Expected(snapshots, n + SUFFIX);
      assert Destination(before, n) == Destination(after, n);
    }
  }

  /** Besides a temporary name, only a stale view's removal can be cut short. */
  ghost predicate TornAt(s: Snapshot, before: Directory, torn: map<string, Removal>, r: Removal)
  {
    forall n :: n in torn && !IsTemporary(n) ==>
      n == Destination(before, s.name) && torn[n] == r && IsView(before, n) && before[n].marker != s.revision
  }

  /** What was cut short at a stale view is told against the start of the run: this run had
      not built that view. */
  lemma TornSinceStart(snapshots: map<string, Snapshot>, s: Snapshot, start: Directory, before: Directory, after: Directory,
                       torn: map<string, Removal>, r: Removal)
    requires Named(snapshots) && s.name in snapshots && snapshots[s.name] == s
    requires ViewsAccounted(snapshots, start, before, {}) && TornExactly(before, after, torn) && TornAt(s, before, torn, r)
    ensures TornExactly(start, after, torn)
  {
    forall n | n in torn && !IsTemporary(n) ensures n in start && start[n] == before[n] {
      forall x | x in snapshots && (n == x || n == x + SUFFIX) ensures x == s.name {
        if n == x + SUFFIX && n == s.name + SUFFIX { SameSuffix(x, s.name); }
      }
    }
  }

  /** One turn of the loop over the snapshots. */
  lemma TurnTaken(snapshots: map<string, Snapshot>, names: seq<string>, i: nat, start: Directory, before: Directory, after: Directory,
                  torn: map<string, Removal>, r: Removal, ok: bool)
    requires Named(snapshots) && StrictlySorted(names) && i < |names| && names[i] in snapshots
    requires Progress(snapshots, start, before) && Covered(snapshots, names, i, before)
    requires Materialized(snapshots[names[i]], before, after, torn.Keys, ok)
    requires TornExactly(before, after, torn) && TornAt(snapshots[names[i]], before, torn, r)
    ensures UserEntriesKept(start, after) && ViewsAccounted(snapshots, start, after, torn.Keys) && TornExactly(start, after, torn)
    ensures ok ==> Progress(snapshots, start, after) && Covered(snapshots, names, i + 1, after) && SameIncomplete(snapshots, before, after)
    ensures ok ==> torn == map[]
    ensures Reserved(before, names[i]) ==> Reserved(start, names[i])
  {
    var s := snapshots[names[i]];
    assert s.name in snapshots && s.name == names[i];
    assert IsTemporary(TEMPORARY + s.name) && TEMPORARY + s.name !in before;
    MaterializeKeepsProgress(snapshots, s, start, before, after, torn.Keys, ok);
    TornSinceStart(snapshots, s, start, before, after, torn, r);
    if ok { CoveredGrows(snapshots, names, i, before, after, torn.Keys); }
  }

  /** One reconciliation, as its contract describes it, and what it found. */
  datatype Run = Run(snapshots: map<string, Snapshot>, before: Directory, after: Directory, torn: map<string, Removal>)

  /** What the removal `r` of an entry left under its name. */
  predicate LeftBy(before: Entry, r: Removal, e: Directory, name: string)
  {
    match Remains(before, r)
    case None => name !in e
    case Some(left) => name in e && e[name] == left
  }

  ghost predicate TornExactly(before: Directory, after: Directory, torn: map<string, Removal>)
  {
    forall n :: n in torn && !IsTemporary(n) ==> n in before && LeftBy(before[n], torn[n], after, n)
  }

  /** `contents(n, revision)` is what a complete view of the revision under the name n holds. */
  ghost predicate ContentsAgree(contents: (string, string) -> map<string, string>, snapshots: map<string, Snapshot>)
  {
    forall s :: s in snapshots ==>
      snapshots[s].files == contents(s, snapshots[s].revision) == contents(s + SUFFIX, snapshots[s].revision)
  }

  /** A view that does not show all of its marked revision. */
  predicate Hollow(contents: (string, string) -> map<string, string>, e: Directory, name: string)
  {
    IsView(e, name) && e[name].files != contents(name, e[name].marker)
  }

  /** The interrupted removal kept the marker and not all of the files. */
  predicate Loses(contents: (string, string) -> map<string, string>, before: Entry, r: Removal, name: string)
  {
    before.View? && !r.gone && r.marker && (map f | f in before.files && r.keeps(f) :: before.files[f]) != contents(name, before.marker)
  }

  /** A run over what the cache held at the time. Since the one before it the user may have
      added, changed or dropped entries, but made no view. */
  ghost predicate Follows(contents: (string, string) -> map<string, string>, earlier: Directory, run: Run)
  {
    && ViewsAccounted(run.snapshots, run.before, run.after, run.torn.Keys) && TornExactly(run.before, run.after, run.torn)
    && ContentsAgree(contents, run.snapshots)
    && (forall n :: IsView(run.before, n) ==> n in earlier && earlier[n] == run.before[n])
  }

  ghost predicate Runs(contents: (string, string) -> map<string, string>, start: Directory, runs: seq<Run>)
  {
    runs == [] ||
    var earlier := runs[..|runs| - 1];
    Runs(contents, start, earlier) && Follows(contents, Left(start, earlier), runs[|runs| - 1])
  }

  /** The directory after the runs. */
  function Left(start: Directory, runs: seq<Run>): Directory
  {
    if runs == [] then start else runs[|runs| - 1].after
  }

  /** A run leaves a hollow view in two ways only: an interrupted removal makes it one, or it
      was one and the run left it alone. */
  predicate HollowBy(contents: (string, string) -> map<string, string>, was: bool, run: Run, name: string)
  {
    if name in run.torn then name in run.before && Loses(contents, run.before[name], run.torn[name], name)
    else was && IsView(run.after, name) && name in run.before && run.before[name] == run.after[name]
  }

  predicate HollowAfter(contents: (string, string) -> map<string, string>, start: Directory, runs: seq<Run>, name: string)
  {
    if runs == [] then Hollow(contents, start, name)
    else HollowBy(contents, HollowAfter(contents, start, runs[..|runs| - 1], name), runs[|runs| - 1], name)
  }

  predicate TornIn(runs: seq<Run>, name: string)
  {
    exists k :: 0 <= k < |runs| && name in runs[k].torn
  }

  lemma RunIsHollowExactly(contents: (string, string) -> map<string, string>, earlier: Directory, run: Run, name: string)
    requires Follows(contents, earlier, run) && !IsTemporary(name)
    ensures Hollow(contents, run.after, name) <==> HollowBy(contents, Hollow(contents, earlier, name), run, name)
  {
    if name !in run.torn && IsView(run.after, name) {
      if name in run.before && run.before[name] == run.after[name] {
        assert IsView(run.before, name);
      } else {
        var s :| s in run.snapshots && (name == s || name == s + SUFFIX) &&
                 run.after[name] == View(run.snapshots[s].revision, run.snapshots[s].files);
        assert run.after[name].files == contents(name, run.after[name].marker);
      }
    }
  }

  /** Over any number of runs: a view is incomplete exactly when a removal at its name kept
      its marker and lost a file, and no later run touched it, or it was so from the start.
      Where no removal was interrupted, whole views stay whole. */
  lemma {:induction false} ViewsAreHollowExactly(contents: (string, string) -> map<string, string>, start: Directory, runs: seq<Run>, name: string)
    requires Runs(contents, start, runs) && !IsTemporary(name)
    ensures Hollow(contents, Left(start, runs), name) <==> HollowAfter(contents, start, runs, name)
    ensures !Hollow(contents, start, name) && !TornIn(runs, name) ==> !Hollow(contents, Left(start, runs), name)
  {
    if runs != [] {
      var earlier, last := runs[..|runs| - 1], runs[|runs| - 1];
      ViewsAreHollowExactly(contents, start, earlier, name);
      RunIsHollowExactly(contents, Left(start, earlier), last, name);
      if !TornIn(runs, name) {
        assert forall k :: 0 <= k < |earlier| ==> earlier[k] == runs[k];
        assert name !in runs[|runs| - 1].torn;
      }
    }
  }

  /** What a snapshot shows is incomplete exactly when its view is hollow and carries the
      marker of its revision, which is what makes a run take it for done. */
  lemma IncompleteIsHollow(contents: (string, string) -> map<string, string>, snapshots: map<string, Snapshot>, e: Directory, s: string)
    requires Named(snapshots) && ContentsAgree(contents, snapshots) && s in snapshots
    ensures Incomplete(e, snapshots[s]) <==>
            var d := Destination(e, s);
            Hollow(contents, e, d) && e[d].marker == snapshots[s].revision
  {
    assert snapshots[s].name == s;
  }

  /** A removal that is cut short leaves a view one file short. When the cache holds that
      revision again, a run that succeeds takes the view for done. */
  method TornViewExample() returns (ok: bool, left: Directory, snapshot: Snapshot)
    ensures ok && Incomplete(left, snapshot)
  {
    var full := map["a" := "1", "b" := "2"];
    var models := new ModelsDirectory(map["m" := View("old", full)]);
    assert !IsTemporary("m") && !IsTemporary("m" + SUFFIX) by { assert "m"[0] == 'm' && TEMPORARY[0] == '.'; }
    var works := Removal(true, true, true, f => true);
    var cut := Removal(false, false, true, f => f == "a");
    var built := Build(true, None);
    var _ := models.Materialize(Snapshot("m", "new", full), Answers(n => works, n => cut, n => works, n => built, n => built));
    assert models.torn["m"] == cut && LeftBy(View("old", full), cut, models.entries, "m");
    assert models.entries["m"] == View("old", map["a" := "1"]);
    snapshot := Snapshot("m", "old", full);
    var again := new ModelsDirectory(models.entries);
    var snapshots := map["m" := snapshot];
    var a := Answers(n => works, n => works, n => works, n => built, n => built);
    assert Named(snapshots) by { assert forall s :: s in snapshots ==> s == "m" && |s + SUFFIX| > 1; }
    assert AllWork(a);
    assert Incomplete(models.entries, snapshots["m"]) by { assert "a" in full && "b" in full && "b" !in map["a" := "1"]; }
    ok := again.Reconcile(snapshots, a);
    left := again.entries;
  }

  /** Nothing has changed but that some leftovers are gone. */
  ghost predicate OnlyTook(snapshots: map<string, Snapshot>, before: Directory, after: Directory)
  {
    && (forall n :: n in after ==> n in before && after[n] == before[n])
    && (forall n :: n in before && Stays(snapshots, n, before[n]) ==> n in after)
  }

  /** What is left when one leftover is not taken in full. */
  lemma CutShort(snapshots: map<string, Snapshot>, start: Directory, before: Directory, after: Directory, name: string, r: Removal)
    requires OnlyTook(snapshots, start, before) && name in before && !Stays(snapshots, name, before[name])
    requires forall n :: n != name ==> (n in after <==> n in before) && (n in after ==> after[n] == before[n])
    requires LeftBy(before[name], r, after, name)
    ensures TornExactly(start, after, map[name := r])
    ensures forall n :: n in start && Stays(snapshots, n, start[n]) ==> n in after && after[n] == start[n]
    ensures forall n :: n in after && n != name ==> n in start && after[n] == start[n]
    ensures name in start && start[name] == before[name]
  {
  }

  lemma TakenWhole(snapshots: map<string, Snapshot>, start: Directory, before: Directory, after: Directory, names: seq<string>, i: nat)
    requires StrictlySorted(names) && i < |names| && OnlyTook(snapshots, start, before)
    requires names[i] in before && !Stays(snapshots, names[i], before[names[i]]) && names[i] !in after
    requires forall n :: n != names[i] ==> (n in after <==> n in before) && (n in after ==> after[n] == before[n])
    requires forall k :: i <= k < |names| ==> names[k] in before
    ensures OnlyTook(snapshots, start, after)
    ensures forall k :: i < k < |names| ==> names[k] in after
  {
    OthersAhead(names, i);
  }

  lemma OthersAhead(names: seq<string>, i: nat)
    requires StrictlySorted(names) && i < |names|
    ensures forall k :: i < k < |names| ==> names[k] != names[i]
  {
    LessIrreflexive(names[i]);
  }

  class ModelsDirectory {
    var entries: Directory
    /** The names at which a removal was cut short, and how. */
    ghost var torn: map<string, Removal>

    constructor (entries: Directory)
      ensures this.entries == entries && torn == map[]
    {
      this.entries, torn := entries, map[];
    }

    method RemoveAll(name: string, r: Removal) returns (ok: bool)
      requires name in entries
      modifies this
      ensures ok == r.ok
      ensures forall n :: n != name ==> (n in entries <==> n in old(entries)) && (n in entries ==> entries[n] == old(entries)[n])
      ensures ok ==> name !in entries && torn == old(torn)
      ensures !ok ==> torn == old(torn)[name := r] && LeftBy(old(entries)[name], r, entries, name)
    {
      if r.ok {
        entries := entries - {name};
      } else {
        var left := Remains(entries[name], r);
        entries := if left.Some? then entries[name := left.value] else entries - {name};
        torn := torn[name := r];
      }
      ok := r.ok;
    }

    /** Interrupted builds and orphaned views go; everything else stays as it is. */
    method RemoveLeftovers(snapshots: map<string, Snapshot>, a: Answers) returns (ok: bool)
      requires torn == map[]
      modifies this
      ensures TornExactly(old(entries), entries, torn)
      ensures forall n :: n in old(entries) && Stays(snapshots, n, old(entries)[n]) ==> n in entries && entries[n] == old(entries)[n]
      ensures forall n :: n in entries && n !in torn ==> n in old(entries) && entries[n] == old(entries)[n]
      ensures forall n :: n in torn ==> n in old(entries) && !Stays(snapshots, n, old(entries)[n]) && torn[n] == a.leftover(n)
      ensures ok ==> torn == map[] && forall n :: n in entries <==> n in old(entries) && Stays(snapshots, n, old(entries)[n])
      ensures (forall n :: n in old(entries) && !Stays(snapshots, n, old(entries)[n]) ==> a.leftover(n).ok) ==> ok
    {
      var names := SortedKeys(entries.Keys);
      assert forall k :: 0 <= k < |names| ==> names[k] in names;
      for i := 0 to |names|
        invariant torn == map[]
        invariant OnlyTook(snapshots, old(entries), entries)
        invariant forall k :: i <= k < |names| ==> names[k] in entries
        invariant forall k :: 0 <= k < i && names[k] in entries ==> Stays(snapshots, names[k], entries[names[k]])
      {
        var name := names[i];
        if !IsTemporary(name) && (entries[name].Plain? || Expected(snapshots, name)) { continue; }
        ghost var before := entries;
        var removed := RemoveAll(name, a.leftover(name));
        if !removed {
          CutShort(snapshots, old(entries), before, entries, name, a.leftover(name));
          return false;
        }
        TakenWhole(snapshots, old(entries), before, entries, names, i);
      }
      assert forall n :: n in entries ==> n in names;
      ok := true;
    }

    /** Makes sure one snapshot has its view. */
    method Materialize(s: Snapshot, a: Answers) returns (ok: bool)
      requires !IsTemporary(s.name) && !IsTemporary(s.name + SUFFIX) && torn == map[]
      modifies this
      ensures Materialized(s, old(entries), entries, torn.Keys, ok)
      ensures TornExactly(old(entries), entries, torn)
      ensures TornAt(s, old(entries), torn, a.stale(s.name))
      ensures var d := Destination(old(entries), s.name);
              IsView(old(entries), d) && old(entries)[d].marker != s.revision && !a.stale(s.name).ok ==> d in torn
      ensures AllWork(a) && !Reserved(old(entries), s.name) ==> ok
    {
      assert IsTemporary(TEMPORARY + s.name);
      var destination := s.name;
      if destination in entries && entries[destination].Plain? { destination := destination + SUFFIX; }
      if destination in entries && entries[destination].View? && entries[destination].marker == s.revision { return true; }
      assert destination == Destination(entries, s.name);
      if destination in entries {
        if entries[destination].Plain? { return false; } // reserved by the user
        var removed := RemoveAll(destination, a.stale(s.name));
        if !removed { return false; }
      }
      ok := Publish(s, destination, a);
      assert forall n :: n in torn ==> IsTemporary(n);
    }

    /** Builds the view under the temporary name and renames it into place. */
    method Publish(s: Snapshot, destination: string, a: Answers) returns (ok: bool)
      requires destination !in entries && destination != TEMPORARY + s.name && torn == map[]
      modifies this
      ensures forall n :: n != destination && n != TEMPORARY + s.name ==>
                (n in entries <==> n in old(entries)) && (n in entries ==> entries[n] == old(entries)[n])
      ensures if ok then destination in entries && entries[destination] == View(s.revision, s.files) else destination !in entries
      ensures ok ==> TEMPORARY + s.name !in entries
      ensures torn.Keys <= {TEMPORARY + s.name}
      ensures TEMPORARY + s.name !in old(entries) ==> torn == map[]
      ensures AllWork(a) ==> ok
    {
      var temporary := TEMPORARY + s.name;
      if temporary in entries { var _ := RemoveAll(temporary, a.temporary(s.name)); }
      var built := temporary !in entries && a.build(s.name).ok;
      if !built || !a.publish(s.name).ok {
        var left := if built then a.publish(s.name).left else a.build(s.name).left;
        entries := if left.Some? then entries[temporary := left.value] else entries - {temporary};
        return false;
      }
      entries := (entries - {temporary})[destination := View(s.revision, s.files)];
      ok := true;
    }

    method MaterializeAll(snapshots: map<string, Snapshot>, a: Answers, ghost start: Directory) returns (ok: bool)
      requires Named(snapshots) && torn == map[] && Progress(snapshots, start, entries)
      modifies this
      ensures UserEntriesKept(start, entries) && ViewsAccounted(snapshots, start, entries, torn.Keys) && TornExactly(start, entries, torn)
      ensures ok ==> Settled(snapshots, entries) && torn == map[] && SameIncomplete(snapshots, old(entries), entries)
      ensures Settled(snapshots, old(entries)) ==> ok && entries == old(entries)
      ensures AllWork(a) && (forall s :: s in snapshots ==> !Reserved(start, s)) ==> ok
    {
      var names := SortedKeys(snapshots.Keys);
      assert forall k :: 0 <= k < |names| ==> names[k] in names;
      for i := 0 to |names|
        invariant Progress(snapshots, start, entries) && torn == map[]
        invariant Covered(snapshots, names, i, entries) && SameIncomplete(snapshots, old(entries), entries)
        invariant Settled(snapshots, old(entries)) ==> entries == old(entries)
      {
        ghost var before := entries;
        var s := snapshots[names[i]];
        assert s.name in snapshots;
        assert Settled(snapshots, before) ==> HasView(before, s);
        ok := Materialize(s, a);
        TurnTaken(snapshots, names, i, start, before, entries, torn, a.stale(s.name), ok);
        if !ok { return; }
      }
      assert forall s :: s in snapshots ==> s in names;
      ok := true;
    }

    /** A full reconciliation. */
    method Reconcile(snapshots: map<string, Snapshot>, a: Answers) returns (ok: bool)
      requires Named(snapshots) && torn == map[]
      modifies this
      ensures UserEntriesKept(old(entries), entries)
      ensures ViewsAccounted(snapshots, old(entries), entries, torn.Keys) && TornExactly(old(entries), entries, torn)
      ensures ok ==> Settled(snapshots, entries) && torn == map[] && SameIncomplete(snapshots, old(entries), entries)
      ensures Settled(snapshots, old(entries)) ==> ok && entries == old(entries)
      ensures AllWork(a) && (forall s :: s in snapshots ==> !Reserved(old(entries), s)) ==> ok
    {
      ok := RemoveLeftovers(snapshots, a);
      if ok {
        assert Settled(snapshots, old(entries)) ==> entries == old(entries);
        ghost var swept := entries;
        assert SameIncomplete(snapshots, old(entries), swept) by { SweepingShowsTheSame(snapshots, old(entries), swept); }
        ok := MaterializeAll(snapshots, a, old(entries));
      }
    }
  }
}

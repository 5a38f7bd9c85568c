/** App packs: installs and uninstalls that run concurrently, each inside the critical
    section of its apps' locks. The machine interleaves them; the class runs one of them
    from start to end, as the daemon's goroutine does. */
module Packs {
  import opened Ordering
  import AppLocks

  datatype App = App(id: string, preinstall: bool, engine: bool)

  /** Known packs and their install order: dependencies first, each app once. */
  type Catalog = map<string, seq<App>>

  ghost predicate Uses(cat: Catalog, pack: string, id: string)
  {
    pack in cat && exists k :: 0 <= k < |cat[pack]| && cat[pack][k].id == id
  }

  function AppIds(order: seq<App>): (ids: seq<string>)
    ensures |ids| == |order| && forall k :: 0 <= k < |order| ==> ids[k] == order[k].id
  {
    seq(|order|, k requires 0 <= k < |order| => order[k].id)
  }

  ghost predicate WellFormed(cat: Catalog)
  {
    forall p, i, j :: p in cat && 0 <= i < |cat[p]| && 0 <= j < |cat[p]| ==>
      cat[p][i].id != "" && (cat[p][i].id == cat[p][j].id ==> i == j)
  }

  /** Containers by app (true: running, false: stopped), and the packs recorded as
      installed. `damaged` is bookkeeping: packs an uninstall of their own took apart
      without reaching the record. */
  datatype System = System(containers: map<string, bool>, recorded: set<string>, damaged: set<string>)

  predicate Running(s: System, id: string)
  {
    id in s.containers && s.containers[id]
  }

  datatype Job =
    | InstallQueued(pack: string)
    | Installing(pack: string, index: nat, added: seq<string>)
    | RollingBack(pack: string, added: seq<string>)
    | UninstallQueued(pack: string)
    | Uninstalling(pack: string, left: nat, keep: set<string>)
    | Ended(pack: string, ok: bool)

  /** What the world answers: whether looking the container up worked, whether the
      action succeeded, and what a failed action left of the container. */
  datatype Answer = Answer(found: bool, ok: bool, leftover: map<string, bool>)

  /** Apps that some other recorded pack is made of. */
  function UsedElsewhere(cat: Catalog, recorded: set<string>, pack: string): (keep: set<string>)
    ensures forall id :: id in keep <==> exists q :: q in recorded && q != pack && Uses(cat, q, id)
  {
    set q, k | q in recorded && q != pack && q in cat && 0 <= k < |cat[q]| :: cat[q][k].id
  }

  /** Only the container `id` may differ. */
  function With(containers: map<string, bool>, id: string, leftover: map<string, bool>): map<string, bool>
  {
    if id in leftover then containers[id := leftover[id]] else containers - {id}
  }

  /** One step of a job inside its critical section. */
  function Advance(cat: Catalog, s: System, job: Job, a: Answer): (System, Job)
    requires job.pack in cat
    requires job.Installing? ==> job.index <= |cat[job.pack]|
    requires job.Uninstalling? ==> job.left <= |cat[job.pack]|
  {
    var p, order := job.pack, cat[job.pack];
    match job
    case InstallQueued(_) => (s, Installing(p, 0, []))
    case Installing(_, k, added) =>
      if k < |order| then
        var id := order[k].id;
        if a.found && Running(s, id) then (s, Installing(p, k + 1, added))
        else if a.ok then (s.(containers := s.containers[id := true]), Installing(p, k + 1, added + [id]))
        else (s.(containers := With(s.containers, id, a.leftover)), RollingBack(p, added))
      else if a.ok then (s.(recorded := s.recorded + {p}, damaged := s.damaged - {p}), Ended(p, true))
      else (s.(recorded := s.recorded + {p}), RollingBack(p, added)) // the save failed, the list in memory has changed
    case RollingBack(_, added) =>
      if added == [] then (s, Ended(p, false))
      else
        var id := added[|added| - 1];
        (if a.ok then s.(containers := s.containers - {id}) else s, RollingBack(p, added[..|added| - 1]))
    case UninstallQueued(_) => (s, Uninstalling(p, |order|, UsedElsewhere(cat, s.recorded, p)))
    case Uninstalling(_, left, keep) =>
      if left > 0 then
        var app := order[left - 1];
        if app.preinstall || app.engine || app.id in keep || !a.found || app.id !in s.containers
        then (s, Uninstalling(p, left - 1, keep))
        else if a.ok then (s.(containers := s.containers - {app.id}, damaged := s.damaged + {p}), Uninstalling(p, left - 1, keep))
        else (s.(containers := With(s.containers, app.id, a.leftover), damaged := s.damaged + {p}), Ended(p, false))
      else (s.(recorded := s.recorded - {p}, damaged := s.damaged - {p}), Ended(p, a.ok))
    case Ended(_, _) => (s, job)
  }

  /** The promise: a recorded pack's apps all run, unless its own uninstall broke off. */
  ghost predicate PackInv(cat: Catalog, s: System)
  {
    forall q, id :: q in s.recorded && q !in s.damaged && Uses(cat, q, id) ==> Running(s, id)
  }

  // ---------------------------------------------------------------- the concurrent machine

  /** Job i of `jobs` belongs to client i of the lock machine. */
  datatype World = World(locks: AppLocks.State, jobs: seq<Job>, sys: System)

  /** Some intact recorded pack is made of this app. */
  ghost predicate Relied(cat: Catalog, s: System, id: string)
  {
    exists q :: q in s.recorded && q !in s.damaged && Uses(cat, q, id)
  }

  /** What a job may assume of the system while it holds its locks. */
  ghost predicate JobInv(cat: Catalog, s: System, job: Job)
  {
    match job
    case Installing(p, k, added) =>
      && p in cat && k <= |cat[p]|
      && (forall i :: 0 <= i < k ==> Running(s, cat[p][i].id))
      && (forall i :: 0 <= i < |added| ==> Uses(cat, p, added[i]))
    case RollingBack(p, added) =>
      p in cat && forall i :: 0 <= i < |added| ==> Uses(cat, p, added[i])
    case Uninstalling(p, left, keep) =>
      && p in cat && left <= |cat[p]|
      && (forall q, id :: q in s.recorded && q !in s.damaged && q != p && Uses(cat, p, id) && Uses(cat, q, id) ==> id in keep)
    case _ => job.pack in cat
  }

  /** What an install would roll back is no part of an intact recorded pack. */
  ghost predicate Spared(cat: Catalog, s: System, job: Job)
  {
    job.Installing? || job.RollingBack? ==> forall i :: 0 <= i < |job.added| ==> !Relied(cat, s, job.added[i])
  }

  ghost predicate Inv(cat: Catalog, w: World)
  {
    && AppLocks.Inv(w.locks)
    && |w.jobs| == |w.locks.clients|
    && (forall i :: 0 <= i < |w.jobs| ==> w.jobs[i].pack in cat)
    && (forall i, id :: 0 <= i < |w.jobs| ==>
          (id in w.locks.clients[i].order <==> Uses(cat, w.jobs[i].pack, id)))
    && (forall i :: 0 <= i < |w.jobs| && w.locks.clients[i].phase == AppLocks.Acquiring ==>
          w.jobs[i].InstallQueued? || w.jobs[i].UninstallQueued?)
    && (forall i :: 0 <= i < |w.jobs| && w.locks.clients[i].phase == AppLocks.Critical ==> JobInv(cat, w.sys, w.jobs[i]))
  }

  ghost predicate AllSpared(cat: Catalog, w: World)
  {
    forall i :: 0 <= i < |w.jobs| && i < |w.locks.clients| && w.locks.clients[i].phase == AppLocks.Critical ==> Spared(cat, w.sys, w.jobs[i])
  }

  /** When a step keeps the promise: an attempt that failed, or a rollback, took no container
      that an intact recorded pack is made of. */
  ghost predicate Keeps(cat: Catalog, s: System, job: Job, a: Answer)
    requires job.pack in cat
  {
    match job
    case Installing(p, k, added) =>
      k < |cat[p]| && !(a.found && Running(s, cat[p][k].id)) && !a.ok && Relied(cat, s, cat[p][k].id) ==>
        cat[p][k].id in a.leftover && a.leftover[cat[p][k].id]
    case RollingBack(p, added) => added != [] && a.ok ==> !Relied(cat, s, added[|added| - 1])
    case _ => true
  }

  /** The two answers the pack promise cannot survive: a lookup that fails although an
      intact pack relies on the app, and a lost save after apps were newly installed. */
  ghost predicate Harmless(cat: Catalog, s: System, job: Job, a: Answer)
    requires job.pack in cat
  {
    match job
    case Installing(p, k, added) =>
      if k < |cat[p]|
      then a.found || !Relied(cat, s, cat[p][k].id)
      else a.ok || added == [] || (p in s.recorded && p in s.damaged)
    case _ => true
  }

  predicate InRange(cat: Catalog, job: Job)
  {
    && job.pack in cat
    && (job.Installing? ==> job.index <= |cat[job.pack]|)
    && (job.Uninstalling? ==> job.left <= |cat[job.pack]|)
  }

  /** Job i, inside its critical section, does its next piece of work. */
  ghost predicate Works(cat: Catalog, w: World, v: World, i: nat, a: Answer)
  {
    && i < |w.jobs| && i < |w.locks.clients|
    && w.locks.clients[i].phase == AppLocks.Critical && !w.jobs[i].Ended?
    && InRange(cat, w.jobs[i])
    && v.locks == w.locks
    && v.sys == Advance(cat, w.sys, w.jobs[i], a).0
    && v.jobs == w.jobs[i := Advance(cat, w.sys, w.jobs[i], a).1]
  }

  /** Job i takes or returns a lock; it leaves its critical section only when done. */
  ghost predicate Locks(w: World, v: World, i: nat)
  {
    && i < |w.jobs| && i < |w.locks.clients| && w.locks.clients[i].held <= |w.locks.clients[i].order|
    && AppLocks.Enabled(w.locks, i)
    && (w.locks.clients[i].phase == AppLocks.Critical ==> w.jobs[i].Ended?)
    && v == w.(locks := AppLocks.Advance(w.locks, i))
  }

  /** The locks of a pack's jobs: one for each of its apps, sorted. */
  ghost predicate IsLockOrder(cat: Catalog, pack: string, order: seq<string>)
  {
    StrictlySorted(order) && forall id :: id in order <==> Uses(cat, pack, id)
  }

  ghost predicate Arrives(cat: Catalog, w: World, v: World, order: seq<string>, job: Job)
  {
    && (job.InstallQueued? || job.UninstallQueued?) && job.pack in cat
    && IsLockOrder(cat, job.pack, order)
    && v == World(AppLocks.Arrive(w.locks, order), w.jobs + [job], w.sys)
  }

  ghost predicate Step(cat: Catalog, w: World, v: World)
  {
    || (exists i, a :: Works(cat, w, v, i, a))
    || (exists i :: Locks(w, v, i))
    || (exists order, job :: Arrives(cat, w, v, order, job))
  }

  // ---------------------------------------------------------------- one job alone

  /** A step of a job of pack p changes nothing outside p's apps and p's own record. */
  ghost predicate OnlyTouches(cat: Catalog, s: System, t: System, p: string)
  {
    && (forall id :: !Uses(cat, p, id) ==> Running(s, id) == Running(t, id))
    && (forall q :: q != p ==> (q in s.recorded <==> q in t.recorded) && (q in s.damaged <==> q in t.damaged))
  }

  lemma InstallStep(cat: Catalog, s: System, job: Job, a: Answer)
    requires WellFormed(cat) && JobInv(cat, s, job) && job.Installing?
    ensures var (t, next) := Advance(cat, s, job, a);
            && JobInv(cat, t, next) && OnlyTouches(cat, s, t, job.pack)
            && (PackInv(cat, s) ==> (PackInv(cat, t) <==> Keeps(cat, s, job, a)))
  {
    var p, k, order := job.pack, job.index, cat[job.pack];
    var (t, next) := Advance(cat, s, job, a);
    if k < |order| {
      var id := order[k].id;
      assert Uses(cat, p, id);
      if PackInv(cat, s) && !Keeps(cat, s, job, a) {
        var q :| q in s.recorded && q !in s.damaged && Uses(cat, q, id);
        assert q in t.recorded && q !in t.damaged && !Running(t, id);
      } else if PackInv(cat, s) {
        forall q, other | q in t.recorded && q !in t.damaged && Uses(cat, q, other) ensures Running(t, other) {
          assert other == id ==> Relied(cat, s, id);
        }
      }
    } else {
      assert forall id :: Uses(cat, p, id) ==> Running(s, id);
    }
  }

  lemma RollBackStep(cat: Catalog, s: System, job: Job, a: Answer)
    requires JobInv(cat, s, job) && job.RollingBack?
    ensures var (t, next) := Advance(cat, s, job, a);
            && JobInv(cat, t, next) && OnlyTouches(cat, s, t, job.pack)
            && (PackInv(cat, s) ==> (PackInv(cat, t) <==> Keeps(cat, s, job, a)))
  {
    var (t, next) := Advance(cat, s, job, a);
    if job.added != [] {
      var id := job.added[|job.added| - 1];
      assert forall i :: 0 <= i < |next.added| ==> next.added[i] == job.added[i];
      if PackInv(cat, s) && !Keeps(cat, s, job, a) {
        var q :| q in s.recorded && q !in s.damaged && Uses(cat, q, id);
        assert q in t.recorded && q !in t.damaged && !Running(t, id);
      } else if PackInv(cat, s) {
        forall q, other | q in t.recorded && q !in t.damaged && Uses(cat, q, other) ensures Running(t, other) {
          assert other == id ==> Relied(cat, s, id);
        }
      }
    }
  }

  lemma UninstallStep(cat: Catalog, s: System, job: Job, a: Answer)
    requires JobInv(cat, s, job) && job.Uninstalling?
    ensures var (t, next) := Advance(cat, s, job, a);
            && JobInv(cat, t, next) && OnlyTouches(cat, s, t, job.pack)
            && (PackInv(cat, s) ==> PackInv(cat, t))
  {
    var p, order := job.pack, cat[job.pack];
    var (t, next) := Advance(cat, s, job, a);
    if job.left > 0 {
      var id := order[job.left - 1].id;
      assert Uses(cat, p, id);
      if PackInv(cat, s) {
        forall q, other | q in t.recorded && q !in t.damaged && Uses(cat, q, other) ensures Running(t, other) {
          assert Running(s, other);
          assert q in s.recorded && q !in s.damaged;
        }
      }
    }
  }

  lemma JobStep(cat: Catalog, s: System, job: Job, a: Answer)
    requires WellFormed(cat) && JobInv(cat, s, job) && job.pack in cat
    ensures var (t, next) := Advance(cat, s, job, a);
            && JobInv(cat, t, next) && next.pack == job.pack && OnlyTouches(cat, s, t, job.pack)
            && (PackInv(cat, s) ==> (PackInv(cat, t) <==> Keeps(cat, s, job, a)))
  {
    match job
    case Installing(_, _, _) => InstallStep(cat, s, job, a);
    case RollingBack(_, _) => RollBackStep(cat, s, job, a);
    case Uninstalling(_, _, _) => UninstallStep(cat, s, job, a);
    case _ =>
  }

  /** Lookups that work and saves that are not lost keep installs from ever having to roll
      back what another pack relies on. */
  lemma HarmlessKeeps(cat: Catalog, s: System, job: Job, a: Answer)
    requires WellFormed(cat) && PackInv(cat, s) && JobInv(cat, s, job) && job.pack in cat
    requires Spared(cat, s, job) && Harmless(cat, s, job, a)
    ensures var (t, next) := Advance(cat, s, job, a);
            Keeps(cat, s, job, a) && Spared(cat, t, next)
  {
    var (t, next) := Advance(cat, s, job, a);
    if job.Installing? && job.index < |cat[job.pack]| {
      var id := cat[job.pack][job.index].id;
      assert Relied(cat, s, id) ==> Running(s, id);
    }
    if next.Installing? || next.RollingBack? {
      forall i | 0 <= i < |next.added| ensures !Relied(cat, t, next.added[i]) {
        if Relied(cat, t, next.added[i]) {
          var q :| q in t.recorded && q !in t.damaged && Uses(cat, q, next.added[i]);
          assert q in s.recorded ==> Relied(cat, s, next.added[i]);
        }
      }
    }
  }

  // ---------------------------------------------------------------- all jobs together

  lemma ReliedBefore(cat: Catalog, s: System, t: System, p: string, id: string)
    requires OnlyTouches(cat, s, t, p) && !Uses(cat, p, id)
    ensures Relied(cat, t, id) ==> Relied(cat, s, id)
  {
    if Relied(cat, t, id) {
      var q :| q in t.recorded && q !in t.damaged && Uses(cat, q, id);
      assert q in s.recorded && q !in s.damaged;
    }
  }

  lemma OtherJobKept(cat: Catalog, s: System, t: System, p: string, job: Job)
    requires JobInv(cat, s, job) && OnlyTouches(cat, s, t, p)
    requires forall id :: !(Uses(cat, p, id) && Uses(cat, job.pack, id))
    ensures JobInv(cat, t, job)
    ensures Spared(cat, s, job) ==> Spared(cat, t, job)
  {
    if job.Installing? || job.RollingBack? {
      forall i | 0 <= i < |job.added| ensures Relied(cat, t, job.added[i]) ==> Relied(cat, s, job.added[i]) {
        assert Uses(cat, job.pack, job.added[i]);
        ReliedBefore(cat, s, t, p, job.added[i]);
      }
    }
    if job.Installing? {
      forall i | 0 <= i < job.index ensures Running(t, cat[job.pack][i].id) {
        assert Uses(cat, job.pack, cat[job.pack][i].id);
      }
    }
  }

  lemma WorkKeepsInv(cat: Catalog, w: World, v: World, i: nat, a: Answer)
    requires WellFormed(cat) && Inv(cat, w) && Works(cat, w, v, i, a)
    ensures Inv(cat, v)
    ensures PackInv(cat, w.sys) ==> (PackInv(cat, v.sys) <==> Keeps(cat, w.sys, w.jobs[i], a))
    ensures PackInv(cat, w.sys) && AllSpared(cat, w) && Harmless(cat, w.sys, w.jobs[i], a) ==> PackInv(cat, v.sys) && AllSpared(cat, v)
  {
    JobStep(cat, w.sys, w.jobs[i], a);
    if PackInv(cat, w.sys) && AllSpared(cat, w) && Harmless(cat, w.sys, w.jobs[i], a) {
      HarmlessKeeps(cat, w.sys, w.jobs[i], a);
    }
    forall j: nat | j < |v.jobs| && j != i && v.locks.clients[j].phase == AppLocks.Critical
      ensures JobInv(cat, v.sys, v.jobs[j]) && (Spared(cat, w.sys, w.jobs[j]) ==> Spared(cat, v.sys, v.jobs[j]))
    {
      AppLocks.CriticalSectionsDisjoint(w.locks, i, j);
      OtherJobKept(cat, w.sys, v.sys, w.jobs[i].pack, w.jobs[j]);
    }
  }

  lemma LockKeepsInv(cat: Catalog, w: World, v: World, i: nat)
    requires Inv(cat, w) && Locks(w, v, i)
    ensures Inv(cat, v) && v.sys == w.sys && (AllSpared(cat, w) ==> AllSpared(cat, v))
  {
    AppLocks.AdvanceKeepsInv(w.locks, i);
    forall j: nat | j < |v.jobs| && v.locks.clients[j].phase == AppLocks.Critical
      ensures JobInv(cat, v.sys, v.jobs[j]) && (AllSpared(cat, w) ==> Spared(cat, v.sys, v.jobs[j]))
    {
      assert w.locks.clients[j].phase != AppLocks.Critical ==> w.jobs[j].InstallQueued? || w.jobs[j].UninstallQueued?;
    }
  }

  /** Whatever step this was, if it was a job's work it kept the promise. */
  ghost predicate StepKeeps(cat: Catalog, w: World, v: World)
  {
    forall i: nat, a :: Works(cat, w, v, i, a) ==> Keeps(cat, w.sys, w.jobs[i], a)
  }

  ghost predicate StepHarmless(cat: Catalog, w: World, v: World)
  {
    forall i: nat, a :: Works(cat, w, v, i, a) ==> Harmless(cat, w.sys, w.jobs[i], a)
  }

  lemma StepKeepsInv(cat: Catalog, w: World, v: World)
    requires WellFormed(cat) && Inv(cat, w) && Step(cat, w, v)
    ensures Inv(cat, v)
    ensures PackInv(cat, w.sys) ==> (PackInv(cat, v.sys) <==> StepKeeps(cat, w, v))
    ensures PackInv(cat, w.sys) && AllSpared(cat, w) && StepHarmless(cat, w, v) ==> PackInv(cat, v.sys) && AllSpared(cat, v)
  {
    forall i: nat, a | Works(cat, w, v, i, a) ensures PackInv(cat, w.sys) ==> (PackInv(cat, v.sys) <==> Keeps(cat, w.sys, w.jobs[i], a)) {
      WorkKeepsInv(cat, w, v, i, a);
    }
    if i, a :| Works(cat, w, v, i, a) {
      WorkKeepsInv(cat, w, v, i, a);
    } else if i :| Locks(w, v, i) {
      LockKeepsInv(cat, w, v, i);
    } else {
      var order, job :| Arrives(cat, w, v, order, job);
      assert AppLocks.Step(w.locks, v.locks);
      AppLocks.StepKeepsInv(w.locks, v.locks);
    }
  }

  /** Every interleaving: any number of jobs, arriving at any time, and any answers. */
  ghost predicate Behaviour(cat: Catalog, trace: seq<World>)
  {
    && trace != [] && trace[0].locks == AppLocks.State([], map[]) && trace[0].jobs == []
    && PackInv(cat, trace[0].sys)
    && forall k :: 0 <= k < |trace| - 1 ==> Step(cat, trace[k], trace[k + 1])
  }

  lemma {:induction false} LocksAlwaysHold(cat: Catalog, trace: seq<World>, k: nat)
    requires WellFormed(cat) && Behaviour(cat, trace) && k < |trace|
    ensures Inv(cat, trace[k])
    decreases k
  {
    if k > 0 {
      LocksAlwaysHold(cat, trace, k - 1);
      StepKeepsInv(cat, trace[k - 1], trace[k]);
    }
  }

  /** The promise holds at every point of an interleaving exactly when no rollback and no
      failed attempt took a container that an intact recorded pack is made of. */
  lemma PacksRunExactly(cat: Catalog, trace: seq<World>)
    requires WellFormed(cat) && Behaviour(cat, trace)
    ensures (forall k :: 0 <= k < |trace| ==> PackInv(cat, trace[k].sys)) <==>
            (forall k :: 0 <= k < |trace| - 1 ==> StepKeeps(cat, trace[k], trace[k + 1]))
  {
    if forall k :: 0 <= k < |trace| ==> PackInv(cat, trace[k].sys) {
      forall k | 0 <= k < |trace| - 1 ensures StepKeeps(cat, trace[k], trace[k + 1]) {
        LocksAlwaysHold(cat, trace, k);
        StepKeepsInv(cat, trace[k], trace[k + 1]);
        assert PackInv(cat, trace[k].sys) && PackInv(cat, trace[k + 1].sys);
      }
    }
    if forall k :: 0 <= k < |trace| - 1 ==> StepKeeps(cat, trace[k], trace[k + 1]) {
      forall k | 0 <= k < |trace| ensures PackInv(cat, trace[k].sys) { KeptUpTo(cat, trace, k); }
    }
  }

  lemma {:induction false} KeptUpTo(cat: Catalog, trace: seq<World>, k: nat)
    requires WellFormed(cat) && Behaviour(cat, trace) && k < |trace|
    requires forall j :: 0 <= j < |trace| - 1 ==> StepKeeps(cat, trace[j], trace[j + 1])
    ensures PackInv(cat, trace[k].sys)
  {
    if k > 0 {
      var j := k - 1;
      assert Step(cat, trace[j], trace[j + 1]) && StepKeeps(cat, trace[j], trace[j + 1]);
      KeptUpTo(cat, trace, j);
      LocksAlwaysHold(cat, trace, j);
      StepKeepsInv(cat, trace[j], trace[k]);
    }
  }

  /** And so it does in every interleaving in which no lookup fails on an app that another
      pack relies on and no save is lost after new apps were installed. */
  lemma {:induction false} PacksAlwaysRun(cat: Catalog, trace: seq<World>, k: nat)
    requires WellFormed(cat) && Behaviour(cat, trace) && k < |trace|
    requires forall j :: 0 <= j < |trace| - 1 ==> StepHarmless(cat, trace[j], trace[j + 1])
    ensures PackInv(cat, trace[k].sys) && AllSpared(cat, trace[k])
    decreases k
  {
    if k > 0 {
      var j := k - 1;
      assert Step(cat, trace[j], trace[j + 1]) && StepHarmless(cat, trace[j], trace[j + 1]);
      PacksAlwaysRun(cat, trace, j);
      LocksAlwaysHold(cat, trace, j);
      StepKeepsInv(cat, trace[j], trace[k]);
    }
  }

  // ---------------------------------------------------------------- one job from start to end

  function Rank(cat: Catalog, job: Job): nat
    requires InRange(cat, job)
  {
    match job
    case InstallQueued(p) => 2 * |cat[p]| + 4
    case Installing(p, k, added) => 2 * (|cat[p]| - k) + |added| + 3
    case RollingBack(_, added) => |added| + 1
    case UninstallQueued(p) => |cat[p]| + 2
    case Uninstalling(_, left, _) => left + 1
    case Ended(_, _) => 0
  }

  /** Runs a job to its end; `ask(k)` is the world's answer at its k-th step. */
  function Drive(cat: Catalog, s: System, job: Job, ask: nat -> Answer, n: nat): (r: (System, Job))
    requires InRange(cat, job)
    ensures r.1.Ended? && r.1.pack == job.pack
    decreases Rank(cat, job)
  {
    if job.Ended? then (s, job)
    else
      var (t, next) := Advance(cat, s, job, ask(n));
      Drive(cat, t, next, ask, n + 1)
  }

  /** A finished install runs every app of the pack and records it, and no app stopped. */
  lemma {:induction false} InstallSucceeds(cat: Catalog, s: System, job: Job, ask: nat -> Answer, n: nat)
    requires InRange(cat, job) && (job.InstallQueued? || job.Installing?)
    requires job.Installing? ==> forall i :: 0 <= i < job.index ==> Running(s, cat[job.pack][i].id)
    requires Drive(cat, s, job, ask, n).1.ok
    ensures var t := Drive(cat, s, job, ask, n).0;
            && t.recorded == s.recorded + {job.pack}
            && (forall id :: Uses(cat, job.pack, id) ==> Running(t, id))
            && (forall id :: !Uses(cat, job.pack, id) ==> (id in t.containers <==> id in s.containers) && Running(t, id) == Running(s, id))
    decreases Rank(cat, job)
  {
    var (t, next) := Advance(cat, s, job, ask(n));
    if next.RollingBack? {
      RollbackFails(cat, t, next, ask, n + 1);
    } else if !next.Ended? {
      InstallSucceeds(cat, t, next, ask, n + 1);
      if job.Installing? { assert Uses(cat, job.pack, cat[job.pack][job.index].id); }
    }
  }

  lemma {:induction false} RollbackFails(cat: Catalog, s: System, job: Job, ask: nat -> Answer, n: nat)
    requires InRange(cat, job) && job.RollingBack?
    ensures var (t, end) := Drive(cat, s, job, ask, n);
            && !end.ok && t.recorded == s.recorded && t.damaged == s.damaged
            && (forall id :: id !in job.added ==> (id in t.containers <==> id in s.containers) && Running(t, id) == Running(s, id))
            && ((forall k :: n <= k ==> ask(k).ok) ==> forall id :: id in job.added ==> id !in t.containers)
    decreases |job.added|
  {
    if job.added != [] {
      var (t, next) := Advance(cat, s, job, ask(n));
      RollbackFails(cat, t, next, ask, n + 1);
      var last := |job.added| - 1;
      assert job.added == job.added[..last] + [job.added[last]];
      if job.added[last] in job.added[..last] {} else {
        assert job.added[last] in Drive(cat, t, next, ask, n + 1).0.containers <==> job.added[last] in t.containers;
      }
    }
  }

  /** A rollback tries every app it added, the last one first, and takes those whose removal
      works. */
  lemma {:induction false} RollbackTakesExactly(cat: Catalog, s: System, job: Job, ask: nat -> Answer, n: nat, i: nat)
    requires InRange(cat, job) && job.RollingBack? && i < |job.added|
    requires forall j, k :: 0 <= j < k < |job.added| ==> job.added[j] != job.added[k]
    ensures job.added[i] in Drive(cat, s, job, ask, n).0.containers <==>
              job.added[i] in s.containers && !ask(n + |job.added| - 1 - i).ok
    decreases |job.added|
  {
    var last := |job.added| - 1;
    var (t, next) := Advance(cat, s, job, ask(n));
    assert next.added == job.added[..last] && Drive(cat, s, job, ask, n) == Drive(cat, t, next, ask, n + 1);
    if i < last {
      RollbackTakesExactly(cat, t, next, ask, n + 1, i);
    } else {
      RollbackFails(cat, t, next, ask, n + 1);
    }
  }

  /** The apps whose lookups fail in an install. */
  function Unseen(cat: Catalog, p: string, ask: nat -> Answer): set<string>
    requires p in cat
  {
    set k | 0 <= k < |cat[p]| && !ask(k + 1).found :: cat[p][k].id
  }

  /** A failed install stops no app that ran before it and whose lookup worked; and it
      changes the record only when it was the save that failed. */
  lemma {:induction false} InstallFailsCleanly(cat: Catalog, s: System, job: Job, ask: nat -> Answer, n: nat, before: System)
    requires WellFormed(cat) && InRange(cat, job)
    requires (job.InstallQueued? && n == 0) || (job.Installing? && n == job.index + 1)
    requires forall id :: Running(before, id) ==> Running(s, id)
    requires job.Installing? ==> forall i :: 0 <= i < |job.added| ==> !Running(before, job.added[i]) || job.added[i] in Unseen(cat, job.pack, ask)
    requires before.recorded == s.recorded && before.damaged == s.damaged
    requires !Drive(cat, s, job, ask, n).1.ok
    ensures var t := Drive(cat, s, job, ask, n).0;
            && (forall id :: Running(before, id) && id !in Unseen(cat, job.pack, ask) ==> Running(t, id))
            && t.damaged == before.damaged
            && (t.recorded == before.recorded || t.recorded == before.recorded + {job.pack})
    decreases Rank(cat, job)
  {
    var (t, next) := Advance(cat, s, job, ask(n));
    if next.RollingBack? {
      RollbackFails(cat, t, next, ask, n + 1);
      if job.index < |cat[job.pack]| {
        assert !ask(n).found ==> cat[job.pack][job.index].id in Unseen(cat, job.pack, ask);
      }
    } else {
      InstallFailsCleanly(cat, t, next, ask, n + 1, before);
    }
  }

  // ---------------------------------------------------------------- where the promise breaks

  /** What an install finds missing among the pack's first k apps. */
  function NotSeen(cat: Catalog, s: System, p: string, ask: nat -> Answer, k: nat): seq<string>
    requires p in cat && k <= |cat[p]|
  {
    if k == 0 then [] else
      NotSeen(cat, s, p, ask, k - 1) + if ask(k).found && Running(s, cat[p][k - 1].id) then [] else [cat[p][k - 1].id]
  }

  /** The system after the first k apps were installed without a failure. */
  function Filled(cat: Catalog, s: System, p: string, ask: nat -> Answer, k: nat): System
    requires p in cat && k <= |cat[p]|
  {
    if k == 0 then s else
      var before := Filled(cat, s, p, ask, k - 1);
      var id := cat[p][k - 1].id;
      if ask(k).found && Running(s, id) then before else before.(containers := before.containers[id := true])
  }

  lemma {:induction false} FilledIs(cat: Catalog, s: System, p: string, ask: nat -> Answer, k: nat)
    requires p in cat && k <= |cat[p]|
    ensures var t := Filled(cat, s, p, ask, k);
            && t.recorded == s.recorded && t.damaged == s.damaged
            && (forall id :: Running(s, id) ==> Running(t, id))
            && (forall i :: 0 <= i < k ==> Running(t, cat[p][i].id))
            && (forall id :: !(exists i :: 0 <= i < k && cat[p][i].id == id) ==> Running(t, id) == Running(s, id))
            && (forall i :: 0 <= i < |NotSeen(cat, s, p, ask, k)| ==> Uses(cat, p, NotSeen(cat, s, p, ask, k)[i]))
  {
    if k > 0 {
      FilledIs(cat, s, p, ask, k - 1);
      assert Uses(cat, p, cat[p][k - 1].id);
    }
  }

  /** The k-th app is not seen running, and so it is installed. */
  predicate Attempted(cat: Catalog, s: System, p: string, ask: nat -> Answer, k: nat)
    requires p in cat && k < |cat[p]|
  {
    !(ask(k + 1).found && Running(s, cat[p][k].id))
  }

  predicate AttemptsWork(cat: Catalog, s: System, p: string, ask: nat -> Answer, k: nat)
    requires p in cat && k <= |cat[p]|
  {
    forall i :: 0 <= i < k && Attempted(cat, s, p, ask, i) ==> ask(i + 1).ok
  }

  /** An install whose attempts succeed reaches this system, ready to roll that back. */
  lemma {:induction false} DriveFills(cat: Catalog, s: System, p: string, ask: nat -> Answer, k: nat)
    requires WellFormed(cat) && p in cat && k <= |cat[p]| && AttemptsWork(cat, s, p, ask, k)
    ensures Drive(cat, s, InstallQueued(p), ask, 0)
         == Drive(cat, Filled(cat, s, p, ask, k), Installing(p, k, NotSeen(cat, s, p, ask, k)), ask, k + 1)
  {
    if k > 0 {
      DriveFills(cat, s, p, ask, k - 1);
      FilledIs(cat, s, p, ask, k - 1);
      var t, added := Filled(cat, s, p, ask, k - 1), NotSeen(cat, s, p, ask, k - 1);
      assert Running(t, cat[p][k - 1].id) <==> Running(s, cat[p][k - 1].id);
      assert Attempted(cat, s, p, ask, k - 1) ==> ask(k).ok;
      var (u, next) := Advance(cat, t, Installing(p, k - 1, added), ask(k));
      assert u == Filled(cat, s, p, ask, k) && next.added == NotSeen(cat, s, p, ask, k);
    }
  }

  /** An install ends well exactly when every attempt at an app that was not seen running
      works, and then the save. It then runs all apps of the pack and has it on the list; one
      that ends badly has it on the list only if it was the save that failed. */
  lemma InstallEndsExactly(cat: Catalog, s: System, p: string, ask: nat -> Answer)
    requires WellFormed(cat) && p in cat
    ensures var (t, end) := Drive(cat, s, InstallQueued(p), ask, 0); var n := |cat[p]|;
            && (end.ok <==> AttemptsWork(cat, s, p, ask, n) && ask(n + 1).ok)
            && t.recorded == (if AttemptsWork(cat, s, p, ask, n) then s.recorded + {p} else s.recorded)
            && t.damaged == (if end.ok then s.damaged - {p} else s.damaged)
            && (end.ok ==> forall id :: Uses(cat, p, id) ==> Running(t, id))
            && (end.ok ==> forall id :: !Uses(cat, p, id) ==> (id in t.containers <==> id in s.containers) && Running(t, id) == Running(s, id))
  {
    var n := |cat[p]|;
    if AttemptsWork(cat, s, p, ask, n) {
      DriveFills(cat, s, p, ask, n);
      FilledIs(cat, s, p, ask, n);
      var t, added := Filled(cat, s, p, ask, n), NotSeen(cat, s, p, ask, n);
      if ask(n + 1).ok {
        assert Drive(cat, t, Installing(p, n, added), ask, n + 1) == (t.(recorded := t.recorded + {p}, damaged := t.damaged - {p}), Ended(p, true));
        InstallSucceeds(cat, s, InstallQueued(p), ask, 0);
      } else {
        RollbackFails(cat, t.(recorded := t.recorded + {p}), RollingBack(p, added), ask, n + 2);
      }
    } else {
      var k := FirstBadAttempt(cat, s, p, ask, n);
      BadAttemptEnds(cat, s, p, ask, k);
    }
  }

  lemma {:induction false} FirstBadAttempt(cat: Catalog, s: System, p: string, ask: nat -> Answer, n: nat) returns (k: nat)
    requires p in cat && n <= |cat[p]| && !AttemptsWork(cat, s, p, ask, n)
    ensures k < n && AttemptsWork(cat, s, p, ask, k) && Attempted(cat, s, p, ask, k) && !ask(k + 1).ok
  {
    k := n - 1;
    if !AttemptsWork(cat, s, p, ask, k) { k := FirstBadAttempt(cat, s, p, ask, k); }
  }

  /** The first attempt that fails ends the install, with the list as it was. */
  lemma BadAttemptEnds(cat: Catalog, s: System, p: string, ask: nat -> Answer, k: nat)
    requires WellFormed(cat) && p in cat && k < |cat[p]|
    requires AttemptsWork(cat, s, p, ask, k) && Attempted(cat, s, p, ask, k) && !ask(k + 1).ok
    ensures var (t, end) := Drive(cat, s, InstallQueued(p), ask, 0);
            !end.ok && t.recorded == s.recorded && t.damaged == s.damaged
  {
    DriveFills(cat, s, p, ask, k);
    FilledIs(cat, s, p, ask, k);
    var filled, added := Filled(cat, s, p, ask, k), NotSeen(cat, s, p, ask, k);
    assert Running(filled, cat[p][k].id) <==> Running(s, cat[p][k].id);
    var (t, next) := Advance(cat, filled, Installing(p, k, added), ask(k + 1));
    assert next == RollingBack(p, added);
    RollbackFails(cat, t, next, ask, k + 2);
  }

  /** Lookups, attempts and removals that work, and the one save fails. */
  predicate OnlySaveFails(cat: Catalog, p: string, ask: nat -> Answer)
    requires p in cat
  {
    !ask(|cat[p]| + 1).ok
  }

  lemma {:induction false} NotSeenIsNotRunning(cat: Catalog, s: System, p: string, ask: nat -> Answer, k: nat)
    requires p in cat && k <= |cat[p]| && forall i :: ask(i).found
    ensures forall id :: id in NotSeen(cat, s, p, ask, k) <==> exists i :: 0 <= i < k && cat[p][i].id == id && !Running(s, id)
  {
    if k > 0 {
      NotSeenIsNotRunning(cat, s, p, ask, k - 1);
      var id := cat[p][k - 1].id;
      if !Running(s, id) { assert id in NotSeen(cat, s, p, ask, k); }
    }
  }

  /** An install whose save fails puts the pack on the list in memory and takes back what it
      installed. That keeps the promise exactly when every app of the pack ran before, or
      the pack had been taken apart by an uninstall of its own and is still listed so. */
  lemma LostSaveExactly(cat: Catalog, s: System, p: string, ask: nat -> Answer)
    requires WellFormed(cat) && PackInv(cat, s) && p in cat
    requires OnlySaveFails(cat, p, ask) && forall k :: ask(k).found && (k != |cat[p]| + 1 ==> ask(k).ok)
    ensures var (t, end) := Drive(cat, s, InstallQueued(p), ask, 0);
            && !end.ok && p in t.recorded
            && (PackInv(cat, t) <==> (forall id :: Uses(cat, p, id) ==> Running(s, id)) || p in s.damaged)
  {
    var n, added := |cat[p]|, NotSeen(cat, s, p, ask, |cat[p]|);
    var full := Filled(cat, s, p, ask, n);
    var listed := full.(recorded := full.recorded + {p});
    DriveFills(cat, s, p, ask, n);
    FilledIs(cat, s, p, ask, n);
    NotSeenIsNotRunning(cat, s, p, ask, n);
    RollbackFails(cat, listed, RollingBack(p, added), ask, n + 2);
    var (t, end) := Drive(cat, listed, RollingBack(p, added), ask, n + 2);
    assert Drive(cat, full, Installing(p, n, added), ask, n + 1) == (t, end);
    if id :| Uses(cat, p, id) && !Running(s, id) {
      assert id in added && !Running(t, id);
    }
    forall q, id | q in s.recorded && q !in s.damaged && Uses(cat, q, id) ensures Running(t, id) {
      assert Running(s, id) && id !in added;
    }
    forall id | Uses(cat, p, id) && Running(s, id) ensures Running(t, id) {
      assert id !in added && Running(full, id);
    }
  }

  /** One pack of one app, nothing installed, and a save that fails. */
  lemma LostSaveExample()
    ensures var cat: Catalog := map["pack" := [App("app", false, false)]];
            var (s, job) := Drive(cat, System(map[], {}, {}), InstallQueued("pack"), n => Answer(true, n != 2, map[]), 0);
            job == Ended("pack", false) && "pack" in s.recorded && !PackInv(cat, s)
  {
    var cat: Catalog := map["pack" := [App("app", false, false)]];
    var ask := n => Answer(true, n != 2, map[]);
    var s0 := System(map[], {}, {});
    var s1 := System(map["app" := true], {}, {});
    var s2 := s1.(recorded := s1.recorded + {"pack"});
    assert Drive(cat, s0, InstallQueued("pack"), ask, 0) == Drive(cat, s0, Installing("pack", 0, []), ask, 1);
    assert Drive(cat, s0, Installing("pack", 0, []), ask, 1) == Drive(cat, s1, Installing("pack", 1, ["app"]), ask, 2);
    assert Drive(cat, s1, Installing("pack", 1, ["app"]), ask, 2) == Drive(cat, s2, RollingBack("pack", ["app"]), ask, 3);
    var s3 := s2.(containers := s2.containers - {"app"});
    assert ["app"][..0] == [];
    assert Drive(cat, s2, RollingBack("pack", ["app"]), ask, 3) == Drive(cat, s3, RollingBack("pack", []), ask, 4);
    assert Drive(cat, s3, RollingBack("pack", []), ask, 4) == Drive(cat, s3, Ended("pack", false), ask, 5);
    assert Uses(cat, "pack", "app") by { assert cat["pack"][0].id == "app"; }
  }

  /** The apps whose lookups fail are `blind`; the save of the list works. */
  ghost predicate Sees(cat: Catalog, p: string, ask: nat -> Answer, blind: set<string>)
    requires p in cat
  {
    && (forall k :: 0 <= k < |cat[p]| ==> (ask(k + 1).found <==> cat[p][k].id !in blind))
    && ask(|cat[p]| + 1).ok
  }

  lemma {:induction false} RollBackSpares(cat: Catalog, s: System, job: Job, ask: nat -> Answer, n: nat)
    requires WellFormed(cat) && PackInv(cat, s) && JobInv(cat, s, job) && Spared(cat, s, job) && job.RollingBack?
    ensures PackInv(cat, Drive(cat, s, job, ask, n).0)
    decreases |job.added|
  {
    if job.added != [] {
      JobStep(cat, s, job, ask(n));
      HarmlessKeeps(cat, s, job, ask(n));
      var (t, next) := Advance(cat, s, job, ask(n));
      RollBackSpares(cat, t, next, ask, n + 1);
    }
  }

  lemma {:induction false} BlindInstallKeeps(cat: Catalog, s: System, job: Job, ask: nat -> Answer, blind: set<string>)
    requires WellFormed(cat) && PackInv(cat, s) && JobInv(cat, s, job) && Spared(cat, s, job) && job.Installing?
    requires Sees(cat, job.pack, ask, blind) && forall id :: id in blind && Uses(cat, job.pack, id) ==> !Relied(cat, s, id)
    ensures PackInv(cat, Drive(cat, s, job, ask, job.index + 1).0)
    decreases |cat[job.pack]| - job.index
  {
    var n := job.index + 1;
    if job.index < |cat[job.pack]| { assert Uses(cat, job.pack, cat[job.pack][job.index].id); }
    assert Harmless(cat, s, job, ask(n));
    JobStep(cat, s, job, ask(n));
    HarmlessKeeps(cat, s, job, ask(n));
    var (t, next) := Advance(cat, s, job, ask(n));
    assert PackInv(cat, t) && Drive(cat, s, job, ask, n) == Drive(cat, t, next, ask, n + 1);
    if next.RollingBack? {
      RollBackSpares(cat, t, next, ask, n + 1);
    } else if next.Installing? {
      assert t.recorded == s.recorded && t.damaged == s.damaged;
      BlindInstallKeeps(cat, t, next, ask, blind);
    }
  }

  /** The attempt at the app whose lookup failed takes its running container and fails. */
  lemma BlindInstallBreaks(cat: Catalog, s: System, p: string, blind: set<string>, j: nat) returns (ask: nat -> Answer)
    requires WellFormed(cat) && PackInv(cat, s) && p in cat && j < |cat[p]|
    requires cat[p][j].id in blind && Relied(cat, s, cat[p][j].id)
    ensures Sees(cat, p, ask, blind) && !PackInv(cat, Drive(cat, s, InstallQueued(p), ask, 0).0)
  {
    var id := cat[p][j].id;
    var order := cat[p];
    ask := (n: nat) => Answer(0 < n <= |order| && order[n - 1].id !in blind, n != j + 1, map[]);
    FailedAttempt(cat, s, p, ask, j);
    var end := Drive(cat, s, InstallQueued(p), ask, 0).0;
    var q :| q in s.recorded && q !in s.damaged && Uses(cat, q, id);
    assert q in end.recorded && q !in end.damaged && !Running(end, id);
  }

  /** The first attempt that fails, and leaves nothing, ends the install without that app. */
  lemma FailedAttempt(cat: Catalog, s: System, p: string, ask: nat -> Answer, j: nat)
    requires WellFormed(cat) && p in cat && j < |cat[p]|
    requires (forall i :: 0 < i <= j ==> ask(i).ok) && !ask(j + 1).found && !ask(j + 1).ok && ask(j + 1).leftover == map[]
    ensures var t := Drive(cat, s, InstallQueued(p), ask, 0).0;
            t.recorded == s.recorded && t.damaged == s.damaged && !Running(t, cat[p][j].id)
  {
    var id := cat[p][j].id;
    var filled, added := Filled(cat, s, p, ask, j), NotSeen(cat, s, p, ask, j);
    DriveFills(cat, s, p, ask, j);
    FilledIs(cat, s, p, ask, j);
    NotSeenIsEarlier(cat, s, p, ask, j);
    var (t, next) := Advance(cat, filled, Installing(p, j, added), ask(j + 1));
    assert next == RollingBack(p, added) && !Running(t, id) && id !in added;
    RollbackFails(cat, t, next, ask, j + 2);
  }

  lemma {:induction false} NotSeenIsEarlier(cat: Catalog, s: System, p: string, ask: nat -> Answer, k: nat)
    requires p in cat && k <= |cat[p]|
    ensures forall id :: id in NotSeen(cat, s, p, ask, k) ==> exists i :: 0 <= i < k && cat[p][i].id == id
  {
    if k > 0 { NotSeenIsEarlier(cat, s, p, ask, k - 1); }
  }

  /** An install keeps the promise, whatever else goes wrong, exactly when no lookup fails
      on an app that an intact recorded pack is made of. */
  lemma BlindInstallExactly(cat: Catalog, s: System, p: string, blind: set<string>)
    requires WellFormed(cat) && PackInv(cat, s) && p in cat
    ensures (forall ask :: Sees(cat, p, ask, blind) ==> PackInv(cat, Drive(cat, s, InstallQueued(p), ask, 0).0)) <==>
            (forall id :: id in blind && Uses(cat, p, id) ==> !Relied(cat, s, id))
  {
    if forall id :: id in blind && Uses(cat, p, id) ==> !Relied(cat, s, id) {
      forall ask | Sees(cat, p, ask, blind) ensures PackInv(cat, Drive(cat, s, InstallQueued(p), ask, 0).0) {
        BlindInstallKeeps(cat, s, Installing(p, 0, []), ask, blind);
      }
    } else {
      var id :| id in blind && Uses(cat, p, id) && Relied(cat, s, id);
      var j :| 0 <= j < |cat[p]| && cat[p][j].id == id;
      var ask := BlindInstallBreaks(cat, s, p, blind, j);
    }
  }

  /** A pack of two apps: the first is running but not seen, the second fails. */
  lemma FirstIsTakenBack(cat: Catalog, s: System, p: string, ask: nat -> Answer)
    requires WellFormed(cat) && p in cat && |cat[p]| == 2 && Running(s, cat[p][0].id) && cat[p][1].id !in s.containers
    requires !ask(1).found && ask(1).ok && !ask(2).ok && ask(2).leftover == map[] && ask(3).ok
    ensures Drive(cat, s, InstallQueued(p), ask, 0) == (s.(containers := s.containers - {cat[p][0].id}), Ended(p, false))
  {
    var x, y := cat[p][0].id, cat[p][1].id;
    assert s.containers[x := true] == s.containers && [] + [x] == [x];
    assert Advance(cat, s, Installing(p, 0, []), ask(1)) == (s, Installing(p, 1, [x]));
    assert With(s.containers, y, map[]) == s.containers;
    assert Advance(cat, s, Installing(p, 1, [x]), ask(2)) == (s, RollingBack(p, [x]));
    var t := s.(containers := s.containers - {x});
    assert [x][..0] == [];
    assert Advance(cat, s, RollingBack(p, [x]), ask(3)) == (t, RollingBack(p, []));
    assert Drive(cat, s, RollingBack(p, [x]), ask, 3) == Drive(cat, t, RollingBack(p, []), ask, 4) == (t, Ended(p, false));
    assert Drive(cat, s, Installing(p, 0, []), ask, 1) == Drive(cat, s, Installing(p, 1, [x]), ask, 2);
  }

  /** Installing "b" when the lookup of its running app "x" fails: "x" is installed again, "y"
      fails, and the rollback removes "x", of which the installed pack "a" is made. */
  lemma BlindInstallExample()
    ensures var x, y := App("x", false, false), App("y", false, false);
            var cat: Catalog := map["a" := [x], "b" := [x, y]];
            var s := System(map["x" := true], {"a"}, {});
            var (t, end) := Drive(cat, s, InstallQueued("b"), n => Answer(n != 1, n != 2, map[]), 0);
            WellFormed(cat) && PackInv(cat, s) && !end.ok && t.recorded == {"a"} && t.damaged == {} && !PackInv(cat, t)
  {
    var x, y := App("x", false, false), App("y", false, false);
    var cat: Catalog := map["a" := [x], "b" := [x, y]];
    var s := System(map["x" := true], {"a"}, {});
    var ask := n => Answer(n != 1, n != 2, map[]);
    assert WellFormed(cat);
    FirstIsTakenBack(cat, s, "b", ask);
    assert Uses(cat, "a", "x") by { assert cat["a"][0].id == "x"; }
    var t := Drive(cat, s, InstallQueued("b"), ask, 0).0;
    assert "a" in t.recorded && "a" !in t.damaged && !Running(t, "x");
  }

  /** Which apps an uninstall leaves alone. */
  predicate Kept(app: App, keep: set<string>)
  {
    app.preinstall || app.engine || app.id in keep
  }

  /** `id` is one of the first `left` apps of the pack and does not stay. */
  predicate Removes(cat: Catalog, pack: string, left: nat, keep: set<string>, id: string)
    requires pack in cat && left <= |cat[pack]|
  {
    exists i :: 0 <= i < left && cat[pack][i].id == id && !Kept(cat[pack][i], keep)
  }

  /** One app's turn in an uninstall. */
  lemma UninstallTurn(cat: Catalog, s: System, job: Job, a: Answer)
    requires InRange(cat, job) && job.Uninstalling? && job.left > 0
    ensures var (t, next) := Advance(cat, s, job, a);
            var app := cat[job.pack][job.left - 1];
            && (next == job.(left := job.left - 1) || next == Ended(job.pack, false))
            && t.recorded == s.recorded
            && (forall id :: id != app.id || Kept(app, job.keep) ==> (id in t.containers <==> id in s.containers) && Running(t, id) == Running(s, id))
            && (a.found && !next.Ended? && !Kept(app, job.keep) ==> app.id !in t.containers)
  {
  }

  /** A finished uninstall removes every app of the pack that is neither core nor used by
      another recorded pack, and nothing else, and drops the record. An unfinished one
      keeps the record. */
  lemma {:induction false} UninstallRemoves(cat: Catalog, s: System, job: Job, ask: nat -> Answer, n: nat)
    requires WellFormed(cat) && InRange(cat, job) && job.Uninstalling?
    ensures var (t, end) := Drive(cat, s, job, ask, n);
            && (forall id :: !Removes(cat, job.pack, job.left, job.keep, id) ==>
                  (id in t.containers <==> id in s.containers) && Running(t, id) == Running(s, id))
            && (end.ok && (forall k :: ask(k).found) ==>
                  forall id :: Removes(cat, job.pack, job.left, job.keep, id) ==> id !in t.containers)
            && (end.ok ==> t.recorded == s.recorded - {job.pack})
            && (t.recorded == s.recorded || t.recorded == s.recorded - {job.pack})
    decreases job.left
  {
    if job.left > 0 {
      UninstallTurn(cat, s, job, ask(n));
      var (t, next) := Advance(cat, s, job, ask(n));
      var app := cat[job.pack][job.left - 1];
      forall id ensures Removes(cat, job.pack, job.left, job.keep, id) <==>
                        Removes(cat, job.pack, job.left - 1, job.keep, id) || (id == app.id && !Kept(app, job.keep)) {}
      if next.Ended? {
        assert Drive(cat, s, job, ask, n) == (t, next);
      } else {
        UninstallRemoves(cat, t, next, ask, n + 1);
        assert !Removes(cat, job.pack, job.left - 1, job.keep, app.id);
        assert Drive(cat, s, job, ask, n) == Drive(cat, t, next, ask, n + 1);
      }
    }
  }

  /** An uninstall tries to remove the i-th app: it does not stay, and it is found. */
  predicate Tried(cat: Catalog, s: System, p: string, keep: set<string>, ask: nat -> Answer, i: nat)
    requires p in cat && i < |cat[p]|
  {
    !Kept(cat[p][i], keep) && ask(|cat[p]| - i).found && cat[p][i].id in s.containers
  }

  /** And the removals of the apps from the i-th on work. */
  predicate RemovalsWork(cat: Catalog, s: System, p: string, keep: set<string>, ask: nat -> Answer, left: nat)
    requires p in cat && left <= |cat[p]|
  {
    forall i :: 0 <= i < left && Tried(cat, s, p, keep, ask, i) ==> ask(|cat[p]| - i).ok
  }

  /** One app's turn: the others' are the same as before. */
  lemma TurnTaken(cat: Catalog, s: System, p: string, keep: set<string>, ask: nat -> Answer, left: nat)
    requires WellFormed(cat) && p in cat && 0 < left <= |cat[p]|
    ensures var n := |cat[p]| - left + 1;
            var (t, next) := Advance(cat, s, Uninstalling(p, left, keep), ask(n));
            && Drive(cat, s, Uninstalling(p, left, keep), ask, n) == Drive(cat, t, next, ask, n + 1)
            && t.recorded == s.recorded
            && next == (if Tried(cat, s, p, keep, ask, left - 1) && !ask(n).ok then Ended(p, false) else Uninstalling(p, left - 1, keep))
            && (next.Uninstalling? ==> t.containers == if Tried(cat, s, p, keep, ask, left - 1) then s.containers - {cat[p][left - 1].id} else s.containers)
            && (next.Uninstalling? ==> forall i :: 0 <= i < left - 1 ==> (Tried(cat, t, p, keep, ask, i) <==> Tried(cat, s, p, keep, ask, i)))
  {
  }

  lemma {:induction false} UninstallVerdict(cat: Catalog, s: System, p: string, keep: set<string>, ask: nat -> Answer, left: nat)
    requires WellFormed(cat) && p in cat && left <= |cat[p]|
    ensures var (t, end) := Drive(cat, s, Uninstalling(p, left, keep), ask, |cat[p]| - left + 1);
            && (end.ok <==> RemovalsWork(cat, s, p, keep, ask, left) && ask(|cat[p]| + 1).ok)
            && t.recorded == (if RemovalsWork(cat, s, p, keep, ask, left) then s.recorded - {p} else s.recorded)
    decreases left
  {
    if left > 0 {
      TurnTaken(cat, s, p, keep, ask, left);
      var (t, next) := Advance(cat, s, Uninstalling(p, left, keep), ask(|cat[p]| - left + 1));
      if next.Uninstalling? {
        UninstallVerdict(cat, t, p, keep, ask, left - 1);
        assert RemovalsWork(cat, s, p, keep, ask, left) <==> RemovalsWork(cat, t, p, keep, ask, left - 1);
      } else {
        assert Tried(cat, s, p, keep, ask, left - 1) && !ask(|cat[p]| - (left - 1)).ok;
      }
    } else {
      LastTurn(cat, s, p, keep, ask);
    }
  }

  lemma LastTurn(cat: Catalog, s: System, p: string, keep: set<string>, ask: nat -> Answer)
    requires WellFormed(cat) && p in cat
    ensures var (t, end) := Drive(cat, s, Uninstalling(p, 0, keep), ask, |cat[p]| + 1);
            end.ok == ask(|cat[p]| + 1).ok && t.recorded == s.recorded - {p}
  {
  }

  predicate TriedAs(cat: Catalog, s: System, p: string, keep: set<string>, ask: nat -> Answer, left: nat, id: string)
    requires p in cat && left <= |cat[p]|
  {
    exists i :: 0 <= i < left && cat[p][i].id == id && Tried(cat, s, p, keep, ask, i)
  }

  lemma {:induction false} UninstallTakes(cat: Catalog, s: System, p: string, keep: set<string>, ask: nat -> Answer, left: nat, id: string)
    requires WellFormed(cat) && p in cat && left <= |cat[p]| && RemovalsWork(cat, s, p, keep, ask, left)
    ensures var t := Drive(cat, s, Uninstalling(p, left, keep), ask, |cat[p]| - left + 1).0;
            id in t.containers <==> id in s.containers && !TriedAs(cat, s, p, keep, ask, left, id)
    decreases left
  {
    if left > 0 {
      TurnTaken(cat, s, p, keep, ask, left);
      var t := Advance(cat, s, Uninstalling(p, left, keep), ask(|cat[p]| - left + 1)).0;
      assert TriedAs(cat, s, p, keep, ask, left, id) <==>
             TriedAs(cat, t, p, keep, ask, left - 1, id) || (cat[p][left - 1].id == id && Tried(cat, s, p, keep, ask, left - 1));
      UninstallTakes(cat, t, p, keep, ask, left - 1, id);
    }
  }

  /** An uninstall ends well exactly when every removal it tries works, and then the save.
      It tries the pack's apps that are found, belong to no other recorded pack, and are
      neither core nor the engine; if all these go, and only then, the pack is off the list. */
  lemma UninstallEndsExactly(cat: Catalog, s: System, p: string, ask: nat -> Answer)
    requires WellFormed(cat) && p in cat
    ensures var (t, end) := Drive(cat, s, UninstallQueued(p), ask, 0);
            var keep, n := UsedElsewhere(cat, s.recorded, p), |cat[p]|;
            && (end.ok <==> RemovalsWork(cat, s, p, keep, ask, n) && ask(n + 1).ok)
            && t.recorded == (if RemovalsWork(cat, s, p, keep, ask, n) then s.recorded - {p} else s.recorded)
            && (RemovalsWork(cat, s, p, keep, ask, n) ==> forall id :: id in t.containers <==> id in s.containers && !TriedAs(cat, s, p, keep, ask, n, id))
  {
    var keep := UsedElsewhere(cat, s.recorded, p);
    UninstallVerdict(cat, s, p, keep, ask, |cat[p]|);
    if RemovalsWork(cat, s, p, keep, ask, |cat[p]|) {
      var t := Drive(cat, s, UninstallQueued(p), ask, 0).0;
      forall id ensures id in t.containers <==> id in s.containers && !TriedAs(cat, s, p, keep, ask, |cat[p]|, id) {
        UninstallTakes(cat, s, p, keep, ask, |cat[p]|, id);
      }
    }
  }

  /** So when every container is found, of the pack's apps exactly the core ones, the engine
      and those of other recorded packs are left. */
  lemma UninstallLeavesExactly(cat: Catalog, s: System, p: string, ask: nat -> Answer, i: nat)
    requires WellFormed(cat) && p in cat && i < |cat[p]| && forall k :: ask(k).found
    requires Drive(cat, s, UninstallQueued(p), ask, 0).1.ok
    ensures var app := cat[p][i];
            app.id in Drive(cat, s, UninstallQueued(p), ask, 0).0.containers <==>
              app.id in s.containers && (app.preinstall || app.engine || exists q :: q in s.recorded && q != p && Uses(cat, q, app.id))
  {
    var keep, app := UsedElsewhere(cat, s.recorded, p), cat[p][i];
    UninstallEndsExactly(cat, s, p, ask);
    assert Tried(cat, s, p, keep, ask, i) <==> !Kept(app, keep) && app.id in s.containers;
    if TriedAs(cat, s, p, keep, ask, |cat[p]|, app.id) {
      var k :| 0 <= k < |cat[p]| && cat[p][k].id == app.id && Tried(cat, s, p, keep, ask, k);
      assert k == i;
    }
  }

  class PackServer {
    var containers: map<string, bool>
    var recorded: set<string>
    ghost var damaged: set<string>

    constructor (containers: map<string, bool>, recorded: set<string>)
      ensures Sys() == System(containers, recorded, {})
    {
      this.containers, this.recorded, damaged := containers, recorded, {};
    }

    ghost function Sys(): System
      reads this
    {
      System(containers, recorded, damaged)
    }

    /** The locks of a job: the ids of its pack's apps, which its job in the machine takes. */
    method LockOrder(cat: Catalog, pack: string) returns (order: seq<string>)
      requires WellFormed(cat) && pack in cat
      ensures IsLockOrder(cat, pack, order)
    {
      order := AppLocks.Normalize(AppIds(cat[pack]));
    }

    method RunPackInstall(cat: Catalog, pack: string, ask: nat -> Answer) returns (ok: bool)
      requires pack in cat
      modifies this
      ensures (Sys(), Ended(pack, ok)) == Drive(cat, old(Sys()), InstallQueued(pack), ask, 0)
      ensures WellFormed(cat) ==> (ok <==> AttemptsWork(cat, old(Sys()), pack, ask, |cat[pack]|) && ask(|cat[pack]| + 1).ok)
      ensures WellFormed(cat) && ok ==> recorded == old(recorded) + {pack} && forall id :: Uses(cat, pack, id) ==> id in containers && containers[id]
      ensures WellFormed(cat) && !ok && !AttemptsWork(cat, old(Sys()), pack, ask, |cat[pack]|) ==> recorded == old(recorded)
    {
      ghost var before := Sys();
      ok := InstallComponents(cat, pack, ask);
      if WellFormed(cat) { InstallEndsExactly(cat, before, pack, ask); }
    }

    /** Component by component, then the list. */
    method InstallComponents(cat: Catalog, pack: string, ask: nat -> Answer) returns (ok: bool)
      requires pack in cat
      modifies this
      ensures (Sys(), Ended(pack, ok)) == Drive(cat, old(Sys()), InstallQueued(pack), ask, 0)
    {
      var order := cat[pack];
      var newContainers: seq<string> := [];
      for index := 0 to |order|
        invariant Drive(cat, old(Sys()), InstallQueued(pack), ask, 0)
               == Drive(cat, Sys(), Installing(pack, index, newContainers), ask, index + 1)
      {
        var id, a := order[index].id, ask(index + 1);
        if !(a.found && id in containers && containers[id]) {
          if !a.ok {
            containers := With(containers, id, a.leftover);
            RollBack(cat, pack, newContainers, ask, index + 2);
            return false;
          }
          containers := containers[id := true];
          newContainers := newContainers + [id];
        }
      }
      recorded := recorded + {pack}; // in memory first, then the file
      if !ask(|order| + 1).ok {
        RollBack(cat, pack, newContainers, ask, |order| + 2);
        return false;
      }
      damaged := damaged - {pack};
      ok := true;
    }

    method RollBack(cat: Catalog, pack: string, newContainers: seq<string>, ask: nat -> Answer, n: nat)
      requires pack in cat
      modifies this
      ensures (Sys(), Ended(pack, false)) == Drive(cat, old(Sys()), RollingBack(pack, newContainers), ask, n)
    {
      var i, k := |newContainers|, n;
      assert newContainers[..i] == newContainers;
      while i > 0
        invariant 0 <= i <= |newContainers|
        invariant Drive(cat, old(Sys()), RollingBack(pack, newContainers), ask, n)
               == Drive(cat, Sys(), RollingBack(pack, newContainers[..i]), ask, k)
      {
        i := i - 1;
        assert newContainers[..i + 1][..i] == newContainers[..i];
        if ask(k).ok { containers := containers - {newContainers[i]}; }
        k := k + 1;
      }
    }

    method RunPackUninstall(cat: Catalog, pack: string, ask: nat -> Answer) returns (ok: bool)
      requires pack in cat
      modifies this
      ensures (Sys(), Ended(pack, ok)) == Drive(cat, old(Sys()), UninstallQueued(pack), ask, 0)
      ensures WellFormed(cat) ==>
                var keep, n := UsedElsewhere(cat, old(recorded), pack), |cat[pack]|;
                && (ok <==> RemovalsWork(cat, old(Sys()), pack, keep, ask, n) && ask(n + 1).ok)
                && recorded == (if RemovalsWork(cat, old(Sys()), pack, keep, ask, n) then old(recorded) - {pack} else old(recorded))
                && (ok ==> forall id :: id in containers <==> id in old(containers) && !TriedAs(cat, old(Sys()), pack, keep, ask, n, id))
    {
      ghost var before := Sys();
      ok := RemoveComponents(cat, pack, ask);
      if WellFormed(cat) { UninstallEndsExactly(cat, before, pack, ask); }
    }

    method FindUsedElsewhere(cat: Catalog, pack: string) returns (usedElsewhere: set<string>)
      ensures usedElsewhere == UsedElsewhere(cat, recorded, pack)
    {
      usedElsewhere := {};
      var others := recorded;
      while others != {}
        invariant others <= recorded
        invariant usedElsewhere == UsedElsewhere(cat, recorded - others, pack)
        decreases |others|
      {
        var installed :| installed in others;
        others := others - {installed};
        if installed != pack && installed in cat {
          usedElsewhere := usedElsewhere + set app | app in cat[installed] :: app.id;
        }
      }
      assert recorded - others == recorded;
    }

    /** Component by component, the last one first, then the list. */
    method RemoveComponents(cat: Catalog, pack: string, ask: nat -> Answer) returns (ok: bool)
      requires pack in cat
      modifies this
      ensures (Sys(), Ended(pack, ok)) == Drive(cat, old(Sys()), UninstallQueued(pack), ask, 0)
    {
      var order := cat[pack];
      var usedElsewhere := FindUsedElsewhere(cat, pack);
      var index, n := |order|, 1;
      while index > 0
        invariant 0 <= index <= |order|
        invariant Drive(cat, old(Sys()), UninstallQueued(pack), ask, 0)
               == Drive(cat, Sys(), Uninstalling(pack, index, usedElsewhere), ask, n)
      {
        index := index - 1;
        var app, a := order[index], ask(n);
        n := n + 1;
        if app.preinstall || app.engine || app.id in usedElsewhere || !a.found || app.id !in containers { continue; }
        damaged := damaged + {pack};
        if !a.ok {
          containers := With(containers, app.id, a.leftover);
          return false;
        }
        containers := containers - {app.id};
      }
      recorded, damaged := recorded - {pack}, damaged - {pack};
      ok := ask(n).ok;
    }
  }
}

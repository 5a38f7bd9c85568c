/** Launching a recipe: prepare beside the running engine, switch, start, verify, connect,
    commit; and what happens instead when any of these fails. */
module RecipeLaunch {
  import opened Subsequences

  datatype Option<T> = None | Some(value: T)

  datatype Boundary = SourceCheckout | ImagePrepare | PeerTransfer | ModelDownload | ModelTransfer | EngineStop
                    | RuntimeStart | PrivateHealth | ProxyPull | ProxyCreate | Promotion | StateCommit

  datatype Disposition = PreserveCurrent | Rollback

  /** The declared safe end for a failure at each boundary. */
  function DispositionOf(b: Boundary): Disposition
  {
    match b
    case SourceCheckout | ImagePrepare | PeerTransfer | ModelDownload | ModelTransfer | EngineStop => PreserveCurrent
    case RuntimeStart | PrivateHealth | ProxyPull | ProxyCreate | Promotion | StateCommit => Rollback
  }

  /** The persisted description of what serves inference. */
  datatype Runtime = Runtime(engine: string, model: string, unloaded: bool, mode: string, recipe: string)

  datatype Phase = Preparing | Prepared | Switching | Starting | Verifying | Active | Stopped

  datatype CommitKind = Candidate | Restored | Finalized | SafelyUnloaded

  /** Everything a launch does that can fail. `Prepare` is a check or command named by its
      text that leaves engine and persisted runtime alone; `Claim` records what is about to
      be used, `Own` what the launch has started. */
  datatype Effect = Prepare(what: string) | Claim(kind: string, node: string) | Arrive(at: Boundary) | Move(to: Phase)
                  | StopEngines | BuildSpec | LaunchPeer(node: string) | StartRuntime | Own(kind: string, node: string)
                  | Health | Contract | PullProxy | RunProxy | Endpoint
                  | Commit(which: CommitKind) | RestartEngine | CleanUp(part: Part)

  datatype Part = Proxy | UnrecordedProxy | RuntimeStop | Resources

  /** What a launch does, and what another holder of the engine lock writes once this one has
      released it. */
  datatype Event = Locked | Unlocked | Did(effect: Effect) | Failed(effect: Effect) | Foreign(runtime: Runtime, serving: Serving)

  /** What actually answers requests. */
  datatype Serving = Previous | Nothing | TheRecipe | Others

  datatype Outcome = Running | Succeeded | FailedBefore | RolledBack

  datatype Recipe = Recipe(id: string, engine: string, model: string, nodes: int, buildOnce: bool, downloadOnce: bool, builds: bool,
                           prerequisites: seq<string>, peers: seq<string>, dependencies: seq<string>)

  datatype Interference = Interference(runtime: Runtime, serving: Serving)

  /** How the outside behaves in one launch: whether its n-th effect works, and what another
      operation does just before the n-th, if the lock is free then. The engine launcher may
      write a selection of its own; `partial` is what serves when stopping the engines fails. */
  datatype World = World(works: nat -> bool, other: nat -> Option<Interference>, reuses: bool, previous: Option<Runtime>,
                         knownEngine: bool, normalized: Runtime, partial: Serving)

  /** What a launch changes: the persisted runtime, what serves, and in the journal the phase,
      the resources on record and the boundaries passed. `did` is bookkeeping: the effects that
      worked, in order. */
  datatype Host = Host(runtime: Runtime, serving: Serving, phase: Phase, claimed: set<(string, string)>, passed: seq<Boundary>,
                       did: seq<Effect>)

  /** What a commit writes. */
  function Written(which: CommitKind, r: Recipe, w: World): Runtime
  {
    match which
    case Candidate => CandidateOf(r)
    case SafelyUnloaded => PreviousOf(w).(unloaded := true)
    case Restored | Finalized => PreviousOf(w)
  }

  function Act(e: Effect, ok: bool, h: Host, r: Recipe, w: World): Host
  {
    if ok then Change(e, ok, h, r, w).(did := h.did + [e]) else Change(e, ok, h, r, w)
  }

  function Change(e: Effect, ok: bool, h: Host, r: Recipe, w: World): Host
  {
    match e
    case Claim(kind, node) => if ok then h.(claimed := h.claimed + {(kind, node)}) else h
    case Own(kind, node) => if ok then h.(claimed := h.claimed + {(kind, node)}) else h
    case Arrive(b) => h.(passed := h.passed + [b])
    case Move(p) => if ok then h.(phase := p) else h
    case StopEngines => h.(serving := if ok then Nothing else w.partial)
    case RunProxy => if ok then h.(serving := TheRecipe) else h
    case CleanUp(part) =>
      if ok && (part.Proxy? || part.UnrecordedProxy?) && h.serving == TheRecipe then h.(serving := Nothing) else h
    case Commit(which) => if ok then h.(runtime := Written(which, r, w)) else h
    case RestartEngine => h.(runtime := w.normalized, serving := if ok then Previous else h.serving)
    case _ => h // a check, a probe, or work beside the engine
  }

  function PreviousOf(w: World): Runtime
  {
    if w.previous.None? then Runtime("", "", true, "", "") else w.previous.value
  }

  function CandidateOf(r: Recipe): Runtime
  {
    Runtime(r.engine, r.model, false, if r.nodes > 1 then "cluster" else "local", r.id)
  }

  function Claims(kinds: seq<string>, node: string): seq<Effect>
  {
    seq(|kinds|, i requires 0 <= i < |kinds| => Claim(kinds[i], node))
  }

  function Prepares(names: seq<string>): seq<Effect>
  {
    seq(|names|, i requires 0 <= i < |names| => Prepare(names[i]))
  }

  function PeerClaims(peers: seq<string>, kinds: seq<string>): seq<Effect>
  {
    if peers == [] then [] else Claims(kinds, peers[0]) + PeerClaims(peers[1..], kinds)
  }

  /** One cache for each model a recipe depends on. */
  function Caches(dependencies: seq<string>): seq<string>
  {
    seq(|dependencies|, i requires 0 <= i < |dependencies| => "model-cache " + dependencies[i])
  }

  // The steps of a launch before it touches the running engine, in order.

  function Owning(r: Recipe): seq<Effect>
  {
    [Prepare("operation")]
    + (if r.builds then [] else Prepares(["checked digest", "pinned reference", "pinned image", "image identity", "bind image"]))
    + Claims(["checkout", "container-set", "image", "model-cache", "private-port", "process-set"]
             + if r.nodes > 1 then ["rendezvous-port"] else [], "")
  }

  function Sourcing(r: Recipe): seq<Effect>
  {
    Prepares(r.prerequisites + (if r.nodes > 1 then ["cluster status"] else []) + ["selection"])
    + [Arrive(SourceCheckout)]
    + Prepares(["checkout", "bind source", "runtime files", "runtime name"])
    + Claims(["compose-project"], "")
  }

  function Peering(r: Recipe): seq<Effect>
  {
    if r.nodes <= 1 then [] else
      Prepares(["peers"])
      + PeerClaims(r.peers, ["checkout", "compose-project", "container-set", "image", "model-cache", "private-port", "process-set", "rendezvous-port"])
  }

  function Building(r: Recipe, reuses: bool): seq<Effect>
  {
    (if r.builds && reuses then [] else [Arrive(ImagePrepare), Prepare("build")])
    + (if r.builds then Prepares(["built image", "same as checked", "local identity", "bind built image", "write reference"]) + Claims(["image"], "") else [])
  }

  function Sending(r: Recipe): seq<Effect>
  {
    if r.nodes <= 1 || !r.buildOnce then [] else
      [Arrive(PeerTransfer), Prepare("send checkout"), Prepare("send image")] + PeerClaims(r.peers, ["image"])
  }

  function Loading(r: Recipe): seq<Effect>
  {
    [Arrive(ModelDownload), Prepare("download")]
    + (if r.nodes > 1 && r.downloadOnce then [Arrive(ModelTransfer), Prepare("send model")]
       else if r.nodes > 1 then [Prepare("verify peers")] else [])
    + [Prepare("operation again"), Prepare("revalidation"), Move(Prepared), Move(Switching), Arrive(EngineStop)]
  }

  function Preparation(r: Recipe, reuses: bool): seq<Effect>
  {
    ((((Owning(r) + Sourcing(r)) + Peering(r)) + Building(r, reuses)) + Sending(r)) + Loading(r)
  }

  // The same for a recipe run in a container of Cloudless's own; it passes no boundary.

  function ManagedOwning(r: Recipe): seq<Effect>
  {
    Prepares(["operation and preflight", "runtime name", "topology"])
    + Claims(["container-set", "image", "model-cache", "private-port"] + (if r.nodes > 1 then ["rendezvous-port"] else []) + Caches(r.dependencies), "")
  }

  function ManagedLoading(r: Recipe): seq<Effect>
  {
    Prepares(["pull", "inspect", "reference", "bind image"] + (if r.peers == [] then [] else ["peers"]) + ["revalidation"])
    + [Move(Prepared), Move(Switching)]
  }

  function ManagedPreparation(r: Recipe): seq<Effect>
  {
    (ManagedOwning(r)
     + PeerClaims(r.peers, ["container-set", "image", "model-cache", "private-port", "rendezvous-port"] + Caches(r.dependencies)))
    + ManagedLoading(r)
  }

  /** Effects that leave engine and persisted runtime alone. */
  predicate Harmless(e: Effect)
  {
    || e.Prepare? || e.Claim? || e == Move(Prepared) || e == Move(Switching)
    || (e.Arrive? && DispositionOf(e.at) == PreserveCurrent)
  }

  predicate AllHarmless(effects: seq<Effect>)
  {
    forall i :: 0 <= i < |effects| ==> Harmless(effects[i])
  }

  /** A harmless effect leaves record and engine alone, whether it works or not. */
  lemma HarmlessKeeps(e: Effect, ok: bool, h: Host, r: Recipe, w: World)
    requires Harmless(e)
    ensures Act(e, ok, h, r, w).runtime == h.runtime && Act(e, ok, h, r, w).serving == h.serving
  {
  }

  lemma {:induction false} PeerClaimsHarmless(peers: seq<string>, kinds: seq<string>)
    ensures AllHarmless(PeerClaims(peers, kinds))
  {
    if peers != [] { PeerClaimsHarmless(peers[1..], kinds); }
  }

  lemma FirstStepsHarmless(r: Recipe)
    ensures AllHarmless((Owning(r) + Sourcing(r)) + Peering(r))
  {
    assert AllHarmless(Owning(r)) && AllHarmless(Sourcing(r));
    PeerClaimsHarmless(r.peers, ["checkout", "compose-project", "container-set", "image", "model-cache", "private-port", "process-set", "rendezvous-port"]);
  }

  lemma LaterStepsHarmless(r: Recipe, reuses: bool)
    ensures AllHarmless(Building(r, reuses)) && AllHarmless(Loading(r)) && AllHarmless(Sending(r))
  {
    PeerClaimsHarmless(r.peers, ["image"]);
  }

  lemma PreparationHarmless(r: Recipe, reuses: bool)
    ensures AllHarmless(Preparation(r, reuses))
  {
    FirstStepsHarmless(r);
    LaterStepsHarmless(r, reuses);
  }

  lemma ManagedPreparationHarmless(r: Recipe)
    ensures AllHarmless(ManagedPreparation(r))
  {
    assert AllHarmless(ManagedOwning(r)) && AllHarmless(ManagedLoading(r));
    PeerClaimsHarmless(r.peers, ["container-set", "image", "model-cache", "private-port", "rendezvous-port"] + Caches(r.dependencies));
  }

  /** A quiet effect of the time after the switch. */
  predicate AfterSwitch(e: Effect)
  {
    !Harmless(e) && !e.RestartEngine?
  }

  predicate AllAfterSwitch(effects: seq<Effect>)
  {
    forall i :: 0 <= i < |effects| ==> AfterSwitch(effects[i]) && Quiet(effects[i]) && effects[i] != Move(Active)
  }

  /** A worker's container is started, then recorded. */
  function PeerLaunches(peers: seq<string>): seq<Effect>
  {
    if peers == [] then [] else [LaunchPeer(peers[0]), Own("container", peers[0])] + PeerLaunches(peers[1..])
  }

  lemma {:induction false} PeerLaunchesAfterSwitch(peers: seq<string>)
    ensures AllAfterSwitch(PeerLaunches(peers))
  {
    if peers != [] { PeerLaunchesAfterSwitch(peers[1..]); }
  }

  // The whole of a launch.

  /** What a kind of launch does before the switch, to start the recipe, to record the proxy
      and to probe the endpoint, and whether it takes away a proxy it could not record. */
  datatype Plan = Plan(before: seq<Effect>, start: seq<Effect>, recording: seq<Effect>, probing: seq<Effect>, removes: bool)

  ghost predicate Proper(p: Plan)
  {
    && AllHarmless(p.before) && AllAfterSwitch(p.start) && AllAfterSwitch(p.recording) && AllAfterSwitch(p.probing)
    && Contract in p.start && Endpoint in p.probing
  }

  function LocalStart(): (r: seq<Effect>)
    ensures AllAfterSwitch(r) && Contract in r
  {
    var r := [Move(Starting), Arrive(RuntimeStart), StartRuntime, Move(Verifying), Arrive(PrivateHealth), Health, Contract,
              Arrive(ProxyPull), PullProxy, Arrive(ProxyCreate)];
    assert r[6] == Contract;
    r
  }

  function ManagedStart(peers: seq<string>): (r: seq<Effect>)
    ensures AllAfterSwitch(r) && Contract in r
  {
    PeerLaunchesAfterSwitch(peers);
    var last := [StartRuntime, Own("container", ""), Move(Verifying), Health, Contract, PullProxy];
    assert last[4] == Contract;
    ([Move(Starting), BuildSpec] + PeerLaunches(peers)) + last
  }

  function Recording(): (r: seq<Effect>)
    ensures AllAfterSwitch(r)
  {
    [Own("container", ""), Own("stable-port", "")]
  }

  function Probing(atBoundaries: bool): (r: seq<Effect>)
    ensures AllAfterSwitch(r) && Endpoint in r
  {
    if atBoundaries then
      var r := [Arrive(Promotion), Endpoint, Arrive(StateCommit)];
      assert r[1] == Endpoint;
      r
    else [Endpoint]
  }

  function LocalPlan(r: Recipe, w: World): (p: Plan)
    ensures Proper(p)
  {
    PreparationHarmless(r, w.reuses);
    Plan(Preparation(r, w.reuses), LocalStart(), Recording(), Probing(true), true)
  }

  function ManagedPlan(r: Recipe): (p: Plan)
    ensures Proper(p)
  {
    ManagedPreparationHarmless(r);
    Plan(ManagedPreparation(r), ManagedStart(r.peers), Recording(), Probing(false), false)
  }

  function StartSteps(p: Plan): seq<Effect>
  {
    [StopEngines] + (p.start + [RunProxy])
  }

  /** From the switch on. */
  function Rest(p: Plan): seq<Effect>
  {
    (StartSteps(p) + (p.recording + p.probing)) + ([Commit(Candidate)] + [Move(Active)])
  }

  function Script(p: Plan): seq<Effect>
  {
    p.before + Rest(p)
  }

  predicate AllWork(works: nat -> bool, from: nat, to: nat)
  {
    forall n :: from <= n < to ==> works(n)
  }

  /** Of these effects, tried in order from step `from` on, the one at step `at` is the first
      to fail. */
  predicate FailsIn(effects: seq<Effect>, works: nat -> bool, from: nat, at: nat, failure: Option<Effect>)
  {
    from <= at < from + |effects| && failure == Some(effects[at - from]) && !works(at) && AllWork(works, from, at)
  }

  lemma OneFails(e: Effect, works: nat -> bool, n: nat)
    ensures !works(n) ==> FailsIn([e], works, n, n, Some(e))
    ensures works(n) ==> AllWork(works, n, n + 1)
  {
  }

  lemma FailsElsewhere(effects: seq<Effect>, works: nat -> bool, from: nat, at: nat, failure: Option<Effect>, e: Effect)
    requires FailsIn(effects, works, from, at, failure) && forall i :: 0 <= i < |effects| ==> effects[i] != e
    ensures failure != Some(e)
  {
  }

  lemma FailsEarly(a: seq<Effect>, b: seq<Effect>, works: nat -> bool, from: nat, at: nat, failure: Option<Effect>)
    requires FailsIn(a, works, from, at, failure)
    ensures FailsIn(a + b, works, from, at, failure)
  {
  }

  lemma FailsLate(a: seq<Effect>, b: seq<Effect>, works: nat -> bool, from: nat, at: nat, failure: Option<Effect>)
    requires AllWork(works, from, from + |a|) && FailsIn(b, works, from + |a|, at, failure)
    ensures FailsIn(a + b, works, from, at, failure)
  {
  }

  lemma QuietBefore(p: Plan)
    requires Proper(p)
    ensures forall i :: 0 <= i < |p.before| ==> Quiet(p.before[i]) 
    ensures StopEngines !in p.before
  {
    assert forall i :: 0 <= i < |p.before| ==> Harmless(p.before[i]);
  }

  lemma RestIsAfterSwitch(p: Plan)
    requires Proper(p)
    ensures forall i :: 0 <= i < |Rest(p)| ==> !Harmless(Rest(p)[i])
  {
    assert forall i :: 0 <= i < |StartSteps(p)| ==> !Harmless(StartSteps(p)[i]);
  }

  // What a launch that succeeds has done.

  /** The boundaries that effects pass. */
  function Boundaries(effects: seq<Effect>): seq<Boundary>
  {
    if effects == [] then [] else
      Boundaries(effects[..|effects| - 1]) + if effects[|effects| - 1].Arrive? then [effects[|effects| - 1].at] else []
  }

  lemma {:induction false} BoundariesJoin(a: seq<Effect>, b: seq<Effect>)
    ensures Boundaries(a + b) == Boundaries(a) + Boundaries(b)
  {
    if b == [] {
      assert a + b == a;
    } else {
      BoundariesJoin(a, b[..|b| - 1]);
      assert (a + b)[..|a + b| - 1] == a + b[..|b| - 1];
    }
  }

  predicate NoneArrive(effects: seq<Effect>)
  {
    forall i :: 0 <= i < |effects| ==> !effects[i].Arrive?
  }

  lemma {:induction false} NoBoundaries(effects: seq<Effect>)
    requires NoneArrive(effects)
    ensures Boundaries(effects) == []
  {
    if effects != [] { NoBoundaries(effects[..|effects| - 1]); }
  }

  lemma {:induction false} PeerClaimsArriveNowhere(peers: seq<string>, kinds: seq<string>)
    ensures NoneArrive(PeerClaims(peers, kinds))
  {
    if peers != [] { PeerClaimsArriveNowhere(peers[1..], kinds); }
  }

  /** One boundary, and then none. */
  lemma OneBoundary(before: seq<Effect>, b: Boundary, after: seq<Effect>)
    requires NoneArrive(before) && NoneArrive(after)
    ensures Boundaries(before + [Arrive(b)] + after) == [b]
  {
    NoBoundaries(before);
    NoBoundaries(after);
    BoundariesJoin(before, [Arrive(b)]);
    BoundariesJoin(before + [Arrive(b)], after);
    assert [Arrive(b)][..0] == [] && Boundaries([]) == [];
  }

  /** The boundaries of this machine's recipes, in order. */
  function LocalBoundaries(r: Recipe, reuses: bool): seq<Boundary>
  {
    (([SourceCheckout] + (if r.builds && reuses then [] else [ImagePrepare])) + (if r.nodes > 1 && r.buildOnce then [PeerTransfer] else []))
    + (([ModelDownload] + (if r.nodes > 1 && r.downloadOnce then [ModelTransfer] else [])) + [EngineStop])
    + [RuntimeStart, PrivateHealth, ProxyPull, ProxyCreate, Promotion, StateCommit]
  }

  lemma FirstBoundaries(r: Recipe)
    ensures Boundaries((Owning(r) + Sourcing(r)) + Peering(r)) == [SourceCheckout]
  {
    NoBoundaries(Owning(r));
    var before := Prepares(r.prerequisites + (if r.nodes > 1 then ["cluster status"] else []) + ["selection"]);
    var after := Prepares(["checkout", "bind source", "runtime files", "runtime name"]) + Claims(["compose-project"], "");
    OneBoundary(before, SourceCheckout, after);
    assert Sourcing(r) == before + [Arrive(SourceCheckout)] + after;
    PeerClaimsArriveNowhere(r.peers, ["checkout", "compose-project", "container-set", "image", "model-cache", "private-port", "process-set", "rendezvous-port"]);
    NoBoundaries(Peering(r));
    BoundariesJoin(Owning(r), Sourcing(r));
    BoundariesJoin(Owning(r) + Sourcing(r), Peering(r));
  }

  lemma BuildBoundaries(r: Recipe, reuses: bool)
    ensures Boundaries(Building(r, reuses)) == if r.builds && reuses then [] else [ImagePrepare]
  {
    var binding := if r.builds then Prepares(["built image", "same as checked", "local identity", "bind built image", "write reference"]) + Claims(["image"], "") else [];
    if r.builds && reuses {
      assert Building(r, reuses) == binding;
      NoBoundaries(binding);
    } else {
      assert Building(r, reuses) == [] + [Arrive(ImagePrepare)] + ([Prepare("build")] + binding);
      OneBoundary([], ImagePrepare, [Prepare("build")] + binding);
    }
  }

  lemma SendBoundaries(r: Recipe)
    ensures Boundaries(Sending(r)) == if r.nodes > 1 && r.buildOnce then [PeerTransfer] else []
  {
    if r.nodes > 1 && r.buildOnce {
      var after := [Prepare("send checkout"), Prepare("send image")] + PeerClaims(r.peers, ["image"]);
      PeerClaimsArriveNowhere(r.peers, ["image"]);
      assert Sending(r) == [] + [Arrive(PeerTransfer)] + after;
      OneBoundary([], PeerTransfer, after);
    }
  }

  lemma LoadBoundaries(r: Recipe)
    ensures Boundaries(Loading(r)) == ([ModelDownload] + (if r.nodes > 1 && r.downloadOnce then [ModelTransfer] else [])) + [EngineStop]
  {
    var sends := r.nodes > 1 && r.downloadOnce;
    var first := [] + [Arrive(ModelDownload)] + [Prepare("download")];
    var second := if sends then [] + [Arrive(ModelTransfer)] + [Prepare("send model")] else if r.nodes > 1 then [Prepare("verify peers")] else [];
    var third := [Prepare("operation again"), Prepare("revalidation"), Move(Prepared), Move(Switching)] + [Arrive(EngineStop)] + [];
    assert Loading(r) == (first + second) + third;
    OneBoundary([], ModelDownload, [Prepare("download")]);
    if sends { OneBoundary([], ModelTransfer, [Prepare("send model")]); } else { NoBoundaries(second); }
    OneBoundary([Prepare("operation again"), Prepare("revalidation"), Move(Prepared), Move(Switching)], EngineStop, []);
    BoundariesJoin(first, second);
    BoundariesJoin(first + second, third);
  }

  lemma PreparationBoundaries(r: Recipe, reuses: bool)
    ensures Boundaries(Preparation(r, reuses)) ==
            (([SourceCheckout] + (if r.builds && reuses then [] else [ImagePrepare])) + (if r.nodes > 1 && r.buildOnce then [PeerTransfer] else []))
            + (([ModelDownload] + (if r.nodes > 1 && r.downloadOnce then [ModelTransfer] else [])) + [EngineStop])
  {
    FirstBoundaries(r);
    BuildBoundaries(r, reuses);
    SendBoundaries(r);
    LoadBoundaries(r);
    FourJoin((Owning(r) + Sourcing(r)) + Peering(r), Building(r, reuses), Sending(r), Loading(r));
  }

  lemma StartBoundaries()
    ensures Boundaries(LocalStart()) == [RuntimeStart, PrivateHealth, ProxyPull, ProxyCreate]
  {
    var a, b := [Move(Starting)] + [Arrive(RuntimeStart)] + [StartRuntime, Move(Verifying)], [] + [Arrive(PrivateHealth)] + [Health, Contract];
    var c, d := [] + [Arrive(ProxyPull)] + [PullProxy], [] + [Arrive(ProxyCreate)] + [];
    OneBoundary([Move(Starting)], RuntimeStart, [StartRuntime, Move(Verifying)]);
    OneBoundary([], PrivateHealth, [Health, Contract]);
    OneBoundary([], ProxyPull, [PullProxy]);
    OneBoundary([], ProxyCreate, []);
    FourBoundaries(a, b, c, d, RuntimeStart, PrivateHealth, ProxyPull, ProxyCreate);
    StartInParts();
  }

  lemma StartInParts()
    ensures LocalStart() == ((([Move(Starting)] + [Arrive(RuntimeStart)] + [StartRuntime, Move(Verifying)]) + ([] + [Arrive(PrivateHealth)] + [Health, Contract]))
                             + ([] + [Arrive(ProxyPull)] + [PullProxy])) + ([] + [Arrive(ProxyCreate)] + [])
  {
  }

  lemma FourBoundaries(a: seq<Effect>, b: seq<Effect>, c: seq<Effect>, d: seq<Effect>, w: Boundary, x: Boundary, y: Boundary, z: Boundary)
    requires Boundaries(a) == [w] && Boundaries(b) == [x] && Boundaries(c) == [y] && Boundaries(d) == [z]
    ensures Boundaries(((a + b) + c) + d) == [w, x, y, z]
  {
    FourJoin(a, b, c, d);
  }

  lemma ProbeBoundaries()
    ensures Boundaries(Recording() + Probing(true)) == [Promotion, StateCommit]
  {
    var a, b := Recording() + [Arrive(Promotion)] + [Endpoint], [] + [Arrive(StateCommit)] + [];
    assert Recording() + Probing(true) == a + b;
    OneBoundary(Recording(), Promotion, [Endpoint]);
    OneBoundary([], StateCommit, []);
    BoundariesJoin(a, b);
  }

  lemma FourJoin(a: seq<Effect>, b: seq<Effect>, c: seq<Effect>, d: seq<Effect>)
    ensures Boundaries(((a + b) + c) + d) == ((Boundaries(a) + Boundaries(b)) + Boundaries(c)) + Boundaries(d)
  {
    BoundariesJoin(a, b);
    BoundariesJoin(a + b, c);
    BoundariesJoin((a + b) + c, d);
  }

  lemma InnerJoin(a: seq<Effect>, b: seq<Effect>, c: seq<Effect>, d: seq<Effect>, e: seq<Effect>)
    requires Boundaries(a) == [] && Boundaries(c) == [] && Boundaries(e) == []
    ensures Boundaries(((a + (b + c)) + d) + e) == Boundaries(b) + Boundaries(d)
  {
    BoundariesJoin(b, c);
    BoundariesJoin(a, b + c);
    BoundariesJoin(a + (b + c), d);
    BoundariesJoin((a + (b + c)) + d, e);
  }

  lemma RestBoundaries(p: Plan)
    ensures Boundaries(Rest(p)) == Boundaries(p.start) + Boundaries(p.recording + p.probing)
  {
    NoBoundaries([StopEngines]);
    NoBoundaries([RunProxy]);
    NoBoundaries([Commit(Candidate)] + [Move(Active)]);
    InnerJoin([StopEngines], p.start, [RunProxy], p.recording + p.probing, [Commit(Candidate)] + [Move(Active)]);
  }

  lemma PlanBoundaries(p: Plan, before: seq<Boundary>, r: Recipe, reuses: bool)
    requires Boundaries(p.before) == before && before + [RuntimeStart, PrivateHealth, ProxyPull, ProxyCreate, Promotion, StateCommit] == LocalBoundaries(r, reuses)
    requires Boundaries(p.start) == [RuntimeStart, PrivateHealth, ProxyPull, ProxyCreate] && Boundaries(p.recording + p.probing) == [Promotion, StateCommit]
    ensures Boundaries(Script(p)) == LocalBoundaries(r, reuses)
  {
    RestBoundaries(p);
    BoundariesJoin(p.before, Rest(p));
  }

  lemma ScriptBoundaries(r: Recipe, w: World)
    ensures Boundaries(Script(LocalPlan(r, w))) == LocalBoundaries(r, w.reuses)
  {
    PreparationBoundaries(r, w.reuses);
    StartBoundaries();
    ProbeBoundaries();
    PlanBoundaries(LocalPlan(r, w), Boundaries(Preparation(r, w.reuses)), r, w.reuses);
  }

  /** What a launch on this machine does before the switch, at the least. */
  function EarlyMilestones(r: Recipe, reuses: bool): seq<Effect>
  {
    (([Arrive(SourceCheckout), Prepare("checkout")] + (if r.builds && reuses then [] else [Arrive(ImagePrepare), Prepare("build")]))
     + (if r.nodes > 1 && r.buildOnce then [Arrive(PeerTransfer), Prepare("send checkout"), Prepare("send image")] else []))
    + ([Arrive(ModelDownload), Prepare("download")]
       + (if r.nodes <= 1 then [] else [Prepare(if r.downloadOnce then "send model" else "verify peers")])
       + [Prepare("revalidation"), Move(Prepared), Move(Switching), Arrive(EngineStop)])
  }

  /** And from the switch on. */
  function LocalMilestones(): seq<Effect>
  {
    [StopEngines, Arrive(RuntimeStart), StartRuntime, Arrive(PrivateHealth), Health, Contract, Arrive(ProxyPull), PullProxy,
     Arrive(ProxyCreate), RunProxy, Own("container", ""), Own("stable-port", ""), Arrive(Promotion), Endpoint, Arrive(StateCommit),
     Commit(Candidate), Move(Active)]
  }

  /** A launch of managed containers before the switch. */
  function ManagedEarlyMilestones(peers: seq<string>): seq<Effect>
  {
    [Prepare("operation and preflight"), Prepare("pull"), Prepare("inspect"), Prepare("bind image")]
    + (if peers == [] then [] else [Prepare("peers")])
    + [Prepare("revalidation"), Move(Prepared), Move(Switching)]
  }

  /** And after it: each worker's container is started and recorded. */
  function ManagedMilestones(peers: seq<string>): seq<Effect>
  {
    ([StopEngines, BuildSpec] + Workers(peers))
    + [StartRuntime, Own("container", ""), Health, Contract, PullProxy, RunProxy, Own("container", ""), Own("stable-port", ""), Endpoint,
       Commit(Candidate), Move(Active)]
  }

  function Workers(peers: seq<string>): seq<Effect>
  {
    seq(2 * |peers|, j requires 0 <= j < 2 * |peers| => if j % 2 == 0 then LaunchPeer(peers[j / 2]) else Own("container", peers[j / 2]))
  }

  lemma {:induction false} WorkersAreLaunched(peers: seq<string>)
    ensures PeerLaunches(peers) == Workers(peers)
  {
    if peers != [] {
      WorkersAreLaunched(peers[1..]);
      var later := Workers(peers[1..]);
      forall j | 2 <= j < 2 * |peers| ensures Workers(peers)[j] == later[j - 2] {
        assert (j - 2) / 2 == j / 2 - 1 && (j - 2) % 2 == j % 2;
      }
      assert Workers(peers) == [LaunchPeer(peers[0]), Own("container", peers[0])] + later;
    }
  }

  /** What follows the start of the recipe in every plan. */
  lemma RestOccurs(p: Plan, start: seq<Effect>, probing: seq<Effect>)
    requires Occur(start, p.start) && Occur(probing, p.probing)
    ensures Occur(([StopEngines] + (start + [RunProxy]) + (p.recording + probing)) + ([Commit(Candidate)] + [Move(Active)]), Rest(p))
  {
    AllOccur([StopEngines]);
    AllOccur([RunProxy]);
    AllOccur(p.recording);
    AllOccur([Commit(Candidate)] + [Move(Active)]);
    JoinedOccur(start, p.start, [RunProxy], [RunProxy]);
    JoinedOccur([StopEngines], [StopEngines], start + [RunProxy], p.start + [RunProxy]);
    JoinedOccur(p.recording, p.recording, probing, p.probing);
    JoinedOccur([StopEngines] + (start + [RunProxy]), StartSteps(p), p.recording + probing, p.recording + p.probing);
    JoinedOccur([StopEngines] + (start + [RunProxy]) + (p.recording + probing), StartSteps(p) + (p.recording + p.probing),
                [Commit(Candidate)] + [Move(Active)], [Commit(Candidate)] + [Move(Active)]);
  }

  lemma SourceOccurs(r: Recipe)
    ensures Occur([Arrive(SourceCheckout), Prepare("checkout")], (Owning(r) + Sourcing(r)) + Peering(r))
  {
    var n := |r.prerequisites + (if r.nodes > 1 then ["cluster status"] else []) + ["selection"]|;
    assert FoundAt(Sourcing(r), [Arrive(SourceCheckout), Prepare("checkout")], [n, n + 1]);
    LaterOccur([Arrive(SourceCheckout), Prepare("checkout")], Owning(r), Sourcing(r));
    SoonerOccur([Arrive(SourceCheckout), Prepare("checkout")], Owning(r) + Sourcing(r), Peering(r));
  }

  lemma BuildOccurs(r: Recipe, reuses: bool)
    ensures Occur(if r.builds && reuses then [] else [Arrive(ImagePrepare), Prepare("build")], Building(r, reuses))
  {
    if r.builds && reuses {
      NoneOccur(Building(r, reuses));
    } else {
      assert FoundAt(Building(r, reuses), [Arrive(ImagePrepare), Prepare("build")], [0, 1]);
    }
  }

  lemma SendOccurs(r: Recipe)
    ensures Occur(if r.nodes > 1 && r.buildOnce then [Arrive(PeerTransfer), Prepare("send checkout"), Prepare("send image")] else [], Sending(r))
  {
    if r.nodes > 1 && r.buildOnce {
      assert FoundAt(Sending(r), [Arrive(PeerTransfer), Prepare("send checkout"), Prepare("send image")], [0, 1, 2]);
    } else {
      NoneOccur(Sending(r));
    }
  }

  lemma LoadOccurs(r: Recipe)
    ensures Occur([Arrive(ModelDownload), Prepare("download")]
                  + (if r.nodes <= 1 then [] else [Prepare(if r.downloadOnce then "send model" else "verify peers")])
                  + [Prepare("revalidation"), Move(Prepared), Move(Switching), Arrive(EngineStop)], Loading(r))
  {
    var first, last := [Arrive(ModelDownload), Prepare("download")], [Prepare("operation again"), Prepare("revalidation"), Move(Prepared), Move(Switching), Arrive(EngineStop)];
    var sends := if r.nodes > 1 && r.downloadOnce then [Arrive(ModelTransfer), Prepare("send model")] else if r.nodes > 1 then [Prepare("verify peers")] else [];
    var sent := if r.nodes <= 1 then [] else [Prepare(if r.downloadOnce then "send model" else "verify peers")];
    AllOccur(first);
    assert FoundAt(sends, sent, if r.nodes <= 1 then [] else if r.downloadOnce then [1] else [0]);
    SwitchOccurs();
    JoinedOccur(first, first, sent, sends);
    JoinedOccur(first + sent, first + sends, [Prepare("revalidation"), Move(Prepared), Move(Switching), Arrive(EngineStop)], last);
  }

  lemma SwitchOccurs()
    ensures Occur([Prepare("revalidation"), Move(Prepared), Move(Switching), Arrive(EngineStop)],
                  [Prepare("operation again"), Prepare("revalidation"), Move(Prepared), Move(Switching), Arrive(EngineStop)])
  {
    assert FoundAt([Prepare("operation again"), Prepare("revalidation"), Move(Prepared), Move(Switching), Arrive(EngineStop)],
                   [Prepare("revalidation"), Move(Prepared), Move(Switching), Arrive(EngineStop)], [1, 2, 3, 4]);
  }

  lemma EarlyMilestonesOccur(r: Recipe, reuses: bool)
    ensures Occur(EarlyMilestones(r, reuses), Preparation(r, reuses))
  {
    SourceOccurs(r);
    BuildOccurs(r, reuses);
    SendOccurs(r);
    LoadOccurs(r);
    var source := [Arrive(SourceCheckout), Prepare("checkout")];
    var build := if r.builds && reuses then [] else [Arrive(ImagePrepare), Prepare("build")];
    var send := if r.nodes > 1 && r.buildOnce then [Arrive(PeerTransfer), Prepare("send checkout"), Prepare("send image")] else [];
    var load := [Arrive(ModelDownload), Prepare("download")]
                + (if r.nodes <= 1 then [] else [Prepare(if r.downloadOnce then "send model" else "verify peers")])
                + [Prepare("revalidation"), Move(Prepared), Move(Switching), Arrive(EngineStop)];
    FourOccur(source, (Owning(r) + Sourcing(r)) + Peering(r), build, Building(r, reuses), send, Sending(r), load, Loading(r));
  }

  lemma FourOccur(a: seq<Effect>, s: seq<Effect>, b: seq<Effect>, t: seq<Effect>, c: seq<Effect>, u: seq<Effect>, d: seq<Effect>, v: seq<Effect>)
    requires Occur(a, s) && Occur(b, t) && Occur(c, u) && Occur(d, v)
    ensures Occur(((a + b) + c) + d, ((s + t) + u) + v)
  {
    JoinedOccur(a, s, b, t);
    JoinedOccur(a + b, s + t, c, u);
    JoinedOccur((a + b) + c, (s + t) + u, d, v);
  }

  lemma ManagedLoadOccurs(r: Recipe)
    ensures Occur([Prepare("pull"), Prepare("inspect"), Prepare("bind image")]
                  + (if r.peers == [] then [] else [Prepare("peers")]) + [Prepare("revalidation"), Move(Prepared), Move(Switching)], ManagedLoading(r))
  {
    var at := if r.peers == [] then [0, 1, 3, 4, 5, 6] else [0, 1, 3, 4, 5, 6, 7];
    assert FoundAt(ManagedLoading(r), [Prepare("pull"), Prepare("inspect"), Prepare("bind image")]
                   + (if r.peers == [] then [] else [Prepare("peers")]) + [Prepare("revalidation"), Move(Prepared), Move(Switching)], at);
  }

  lemma ManagedEarlyOccur(r: Recipe)
    ensures Occur(ManagedEarlyMilestones(r.peers), ManagedPreparation(r))
  {
    var claims := PeerClaims(r.peers, ["container-set", "image", "model-cache", "private-port", "rendezvous-port"] + Caches(r.dependencies));
    var checked := [Prepare("operation and preflight")];
    var loaded := [Prepare("pull"), Prepare("inspect"), Prepare("bind image")]
                  + (if r.peers == [] then [] else [Prepare("peers")]) + [Prepare("revalidation"), Move(Prepared), Move(Switching)];
    assert FoundAt(ManagedOwning(r), checked, [0]);
    SoonerOccur(checked, ManagedOwning(r), claims);
    ManagedLoadOccurs(r);
    JoinedOccur(checked, ManagedOwning(r) + claims, loaded, ManagedLoading(r));
    assert checked + loaded == ManagedEarlyMilestones(r.peers);
  }

  /** Before the switch a launch has put on record whatever it may leave on its machines. */
  lemma {:induction false} PeersAreClaimed(peers: seq<string>, kinds: seq<string>, peer: string, kind: string)
    requires peer in peers && kind in kinds
    ensures Claim(kind, peer) in PeerClaims(peers, kinds)
  {
    if peers[0] == peer {
      KindIsClaimed(kinds, kind, peer);
    } else {
      PeersAreClaimed(peers[1..], kinds, peer, kind);
    }
  }

  lemma KindIsClaimed(kinds: seq<string>, kind: string, node: string)
    requires kind in kinds
    ensures Claim(kind, node) in Claims(kinds, node)
  {
    var i :| 0 <= i < |kinds| && kinds[i] == kind;
    assert Claims(kinds, node)[i] == Claim(kind, node);
  }

  /** What a launch may leave behind: here, and on each worker of a distributed recipe. */
  predicate Uses(r: Recipe, kind: string, node: string)
  {
    && (|| kind in ["checkout", "container-set", "image", "model-cache", "private-port", "process-set", "compose-project"]
        || (kind == "rendezvous-port" && r.nodes > 1))
    && (node == "" || (r.nodes > 1 && node in r.peers))
  }

  lemma ResourcesAreClaimed(r: Recipe, reuses: bool, kind: string, node: string)
    requires Uses(r, kind, node)
    ensures Claim(kind, node) in Preparation(r, reuses)
  {
    if node == "" {
      if kind == "compose-project" {
        KindIsClaimed(["compose-project"], kind, node);
        assert Claim(kind, node) in Sourcing(r);
      } else {
        KindIsClaimed(["checkout", "container-set", "image", "model-cache", "private-port", "process-set"]
                      + if r.nodes > 1 then ["rendezvous-port"] else [], kind, node);
        assert Claim(kind, node) in Owning(r);
      }
    } else {
      PeersAreClaimed(r.peers, ["checkout", "compose-project", "container-set", "image", "model-cache", "private-port", "process-set", "rendezvous-port"], node, kind);
      assert Claim(kind, node) in Peering(r);
    }
    assert Claim(kind, node) in (Owning(r) + Sourcing(r)) + Peering(r);
  }

  predicate UsesManaged(r: Recipe, kind: string, node: string)
  {
    && (|| kind in ["container-set", "image", "model-cache", "private-port"] || kind in Caches(r.dependencies)
        || (kind == "rendezvous-port" && (node != "" || r.nodes > 1)))
    && (node == "" || node in r.peers)
  }

  lemma ManagedResourcesAreClaimed(r: Recipe, kind: string, node: string)
    requires UsesManaged(r, kind, node)
    ensures Claim(kind, node) in ManagedPreparation(r)
  {
    var kinds := ["container-set", "image", "model-cache", "private-port"];
    if node == "" {
      KindIsClaimed(kinds + (if r.nodes > 1 then ["rendezvous-port"] else []) + Caches(r.dependencies), kind, node);
      assert Claim(kind, node) in ManagedOwning(r);
    } else {
      PeersAreClaimed(r.peers, ["container-set", "image", "model-cache", "private-port", "rendezvous-port"] + Caches(r.dependencies), node, kind);
    }
  }

  function StartMilestones(): seq<Effect>
  {
    [Arrive(RuntimeStart), StartRuntime, Arrive(PrivateHealth), Health, Contract, Arrive(ProxyPull), PullProxy, Arrive(ProxyCreate)]
  }

  lemma StartOccurs()
    ensures Occur(StartMilestones(), LocalStart())
  {
    assert FoundAt(LocalStart(), StartMilestones(), [1, 2, 4, 5, 6, 7, 8, 9]);
  }

  lemma LocalMilestonesAre()
    ensures LocalMilestones() == ([StopEngines] + (StartMilestones() + [RunProxy]) + (Recording() + Probing(true))) + ([Commit(Candidate)] + [Move(Active)])
  {
  }

  lemma LocalMilestonesOccur(r: Recipe, w: World)
    ensures Occur(EarlyMilestones(r, w.reuses) + LocalMilestones(), Script(LocalPlan(r, w)))
  {
    EarlyMilestonesOccur(r, w.reuses);
    StartOccurs();
    AllOccur(Probing(true));
    LocalMilestonesAre();
    RestOccurs(LocalPlan(r, w), StartMilestones(), Probing(true));
    JoinedOccur(EarlyMilestones(r, w.reuses), Preparation(r, w.reuses), LocalMilestones(), Rest(LocalPlan(r, w)));
  }

  function RuntimeMilestones(): seq<Effect>
  {
    [StartRuntime, Own("container", ""), Health, Contract, PullProxy]
  }

  lemma RuntimeOccurs()
    ensures Occur(RuntimeMilestones(), [StartRuntime, Own("container", ""), Move(Verifying), Health, Contract, PullProxy])
  {
    assert FoundAt([StartRuntime, Own("container", ""), Move(Verifying), Health, Contract, PullProxy], RuntimeMilestones(), [0, 1, 3, 4, 5]);
  }

  lemma WorkersOccur(peers: seq<string>)
    ensures Occur([BuildSpec] + Workers(peers), [Move(Starting), BuildSpec] + PeerLaunches(peers))
  {
    assert FoundAt([Move(Starting), BuildSpec], [BuildSpec], [1]);
    WorkersAreLaunched(peers);
    AllOccur(Workers(peers));
    JoinedOccur([BuildSpec], [Move(Starting), BuildSpec], Workers(peers), Workers(peers));
  }

  lemma ManagedStartOccurs(peers: seq<string>)
    ensures Occur(([BuildSpec] + Workers(peers)) + RuntimeMilestones(), ManagedStart(peers))
  {
    RuntimeOccurs();
    WorkersOccur(peers);
    JoinedOccur([BuildSpec] + Workers(peers), [Move(Starting), BuildSpec] + PeerLaunches(peers), RuntimeMilestones(),
                [StartRuntime, Own("container", ""), Move(Verifying), Health, Contract, PullProxy]);
  }

  lemma ManagedMilestonesAre(workers: seq<Effect>)
    ensures ([StopEngines, BuildSpec] + workers)
            + [StartRuntime, Own("container", ""), Health, Contract, PullProxy, RunProxy, Own("container", ""), Own("stable-port", ""), Endpoint,
               Commit(Candidate), Move(Active)]
         == ([StopEngines] + ((([BuildSpec] + workers) + RuntimeMilestones()) + [RunProxy]) + (Recording() + Probing(false)))
            + ([Commit(Candidate)] + [Move(Active)])
  {
  }

  lemma ManagedMilestonesOccur(r: Recipe)
    ensures Occur(ManagedEarlyMilestones(r.peers) + ManagedMilestones(r.peers), Script(ManagedPlan(r)))
  {
    ManagedEarlyOccur(r);
    ManagedStartOccurs(r.peers);
    AllOccur(Probing(false));
    ManagedMilestonesAre(Workers(r.peers));
    RestOccurs(ManagedPlan(r), ([BuildSpec] + Workers(r.peers)) + RuntimeMilestones(), Probing(false));
    JoinedOccur(ManagedEarlyMilestones(r.peers), ManagedPreparation(r), ManagedMilestones(r.peers), Rest(ManagedPlan(r)));
  }

  // What a trace must look like.

  /** An effect that neither commits, nor starts or stops what serves. */
  predicate Quiet(e: Effect)
  {
    !e.Commit? && !e.RestartEngine? && !e.StopEngines? && !e.RunProxy? && !e.CleanUp?
  }

  /** The candidate is only committed after both probes of this run succeeded. */
  ghost predicate Probed(trace: seq<Event>)
  {
    trace == [] ||
    var before := trace[..|trace| - 1];
    Probed(before) && (trace[|trace| - 1] == Did(Commit(Candidate)) ==> Did(Contract) in before && Did(Endpoint) in before)
  }

  /** Both events of this run came before the commit, wherever in the run it is. */
  lemma {:induction false} ProbedAt(trace: seq<Event>, i: nat)
    requires Probed(trace) && i < |trace| && trace[i] == Did(Commit(Candidate))
    ensures Did(Contract) in trace[..i] && Did(Endpoint) in trace[..i]
  {
    if i < |trace| - 1 {
      ProbedAt(trace[..|trace| - 1], i);
      assert trace[..|trace| - 1][..i] == trace[..i];
    }
  }

  function FirstFailure(trace: seq<Event>): Option<Effect>
  {
    if trace == [] then None
    else
      var earlier := FirstFailure(trace[..|trace| - 1]);
      if earlier.Some? then earlier else if trace[|trace| - 1].Failed? then Some(trace[|trace| - 1].effect) else None
  }

  function Count(trace: seq<Event>, event: Event): nat
  {
    if trace == [] then 0 else Count(trace[..|trace| - 1], event) + if trace[|trace| - 1] == event then 1 else 0
  }

  predicate SameLocks(a: seq<Event>, b: seq<Event>)
  {
    Count(a, Locked) == Count(b, Locked) && Count(a, Unlocked) == Count(b, Unlocked)
  }

  /** The engines that run were not touched. */
  ghost predicate Untouched(trace: seq<Event>)
  {
    Did(StopEngines) !in trace && Failed(StopEngines) !in trace
  }

  /** The effects that worked, in order. */
  function Worked(trace: seq<Event>): seq<Effect>
  {
    if trace == [] then [] else Worked(trace[..|trace| - 1]) + if trace[|trace| - 1].Did? then [trace[|trace| - 1].effect] else []
  }

  lemma {:induction false} DidIsWorked(trace: seq<Event>, start: Host, r: Recipe, w: World)
    ensures Replay(trace, start, r, w).did == start.did + Worked(trace)
  {
    if trace != [] { DidIsWorked(trace[..|trace| - 1], start, r, w); }
  }

  lemma PrefixGrows(before: seq<Effect>, effects: seq<Effect>, i: nat)
    requires i < |effects|
    ensures before + effects[..i] + [effects[i]] == before + effects[..i + 1]
  {
  }

  lemma Regroup(a: seq<Effect>, b: seq<Effect>, c: seq<Effect>)
    ensures (a + b) + c == a + (b + c)
  {
  }

  lemma SameRest(a: seq<Effect>, b: seq<Effect>, c: seq<Effect>)
    requires a + b == a + c
    ensures b == c
  {
    assert b == (a + b)[|a|..] && c == (a + c)[|a|..];
  }

  /** What a trace makes of a host, as its events are ordered. */
  function Replay(trace: seq<Event>, start: Host, r: Recipe, w: World): Host
  {
    if trace == [] then start else
      Happen(trace[|trace| - 1], Replay(trace[..|trace| - 1], start, r, w), r, w)
  }

  function Happen(event: Event, h: Host, r: Recipe, w: World): Host
  {
    match event
    case Did(effect) => Act(effect, true, h, r, w)
    case Failed(effect) => Act(effect, false, h, r, w)
    case Foreign(runtime, serving) => h.(runtime := runtime, serving := serving)
    case _ => h
  }

  /** What one more event does to all of these. */
  lemma OneMore(trace: seq<Event>, event: Event, start: Host, r: Recipe, w: World)
    ensures var now := trace + [event];
            && FirstFailure(now) == (if FirstFailure(trace).Some? then FirstFailure(trace) else if event.Failed? then Some(event.effect) else None)
            && Count(now, Locked) == Count(trace, Locked) + (if event == Locked then 1 else 0)
            && Count(now, Unlocked) == Count(trace, Unlocked) + (if event == Unlocked then 1 else 0)
            && (Probed(trace) && (event == Did(Commit(Candidate)) ==> Did(Contract) in trace && Did(Endpoint) in trace) ==> Probed(now))
    ensures Replay(trace + [event], start, r, w) == Happen(event, Replay(trace, start, r, w), r, w)
  {
    var now := trace + [event];
    assert now[..|now| - 1] == trace;
  }

  /** A launch in which nothing failed has passed the boundaries of what it did. */
  lemma {:induction false} BoundariesArePassed(trace: seq<Event>, start: Host, r: Recipe, w: World)
    requires FirstFailure(trace).None?
    ensures Replay(trace, start, r, w).passed == start.passed + Boundaries(Worked(trace))
  {
    if trace != [] {
      var init, event := trace[..|trace| - 1], trace[|trace| - 1];
      BoundariesArePassed(init, start, r, w);
      if event.Did? {
        BoundariesJoin(Worked(init), [event.effect]);
        assert [event.effect][..0] == [] && Boundaries([]) == [];
      } else {
        assert Worked(init) + [] == Worked(init);
      }
    }
  }

  /** A runtime that neither the previous one, nor the launcher, nor anyone else ever writes. */
  predicate Strange(x: Runtime, w: World)
  {
    x !in {PreviousOf(w), PreviousOf(w).(unloaded := true), w.normalized}
  }

  /** At every point of a run, what is persisted is the candidate only if this run's probes
      of the private side and of the stable endpoint have succeeded before. */
  lemma {:induction false} PersistedMeansProbed(trace: seq<Event>, k: nat, start: Host, r: Recipe, w: World)
    requires Probed(trace) && k <= |trace| && Strange(CandidateOf(r), w) && start.runtime != CandidateOf(r)
    requires forall i :: 0 <= i < |trace| && trace[i].Foreign? ==> trace[i].runtime != CandidateOf(r)
    requires Replay(trace[..k], start, r, w).runtime == CandidateOf(r)
    ensures Did(Contract) in trace[..k] && Did(Endpoint) in trace[..k]
  {
    if k > 0 {
      assert trace[..k][..k - 1] == trace[..k - 1];
      if trace[k - 1] == Did(Commit(Candidate)) {
        ProbedAt(trace, k - 1);
      } else {
        PersistedMeansProbed(trace, k - 1, start, r, w);
      }
      assert forall e :: e in trace[..k - 1] ==> e in trace[..k];
    }
  }

  // Rolling back.

  /** Which of its steps worked; one that was not taken did not. */
  datatype Undo = Undo(restored: bool, restarted: bool, finalized: bool, unloaded: bool)

  /** The previous runtime is restored in full. */
  predicate Back(u: Undo, w: World)
  {
    u.restored && (PreviousOf(w).unloaded || u.finalized)
  }

  /** The order of the steps: each is taken only after the ones it needs. */
  predicate InOrder(u: Undo, w: World)
  {
    && (u.finalized ==> u.restarted)
    && (u.restarted ==> u.restored && !PreviousOf(w).unloaded && PreviousOf(w).recipe == "" && w.knownEngine)
    && (u.unloaded ==> !Back(u, w))
  }

  /** What another operation leaves on record just before step n. */
  function Over(x: Runtime, w: World, n: nat): Runtime
  {
    if w.other(n).Some? then w.other(n).value.runtime else x
  }

  /** And over several steps. */
  function Overwritten(x: Runtime, w: World, from: nat, to: nat): Runtime
  {
    if from >= to then x else Over(Overwritten(x, w, from, to - 1), w, to - 1)
  }

  lemma OverwrittenInThree(x: Runtime, w: World, n: nat)
    ensures Overwritten(x, w, n, n + 3) == Over(Over(Over(x, w, n), w, n + 1), w, n + 2)
  {
    assert Overwritten(x, w, n, n) == x && Overwritten(x, w, n, n + 1) == Over(x, w, n);
    assert Overwritten(x, w, n, n + 2) == Over(Overwritten(x, w, n, n + 1), w, n + 1);
  }

  /** The last resort, at step n. */
  function Unloaded(u: Undo, w: World, n: nat, x: Runtime): Runtime
  {
    if u.unloaded then PreviousOf(w).(unloaded := true) else Over(x, w, n)
  }

  /** The engine launcher gets its turn. */
  predicate Restarts(u: Undo, w: World)
  {
    u.restored && !PreviousOf(w).unloaded && PreviousOf(w).recipe == "" && w.knownEngine
  }

  function Steps(u: Undo, w: World): nat
  {
    if !Restarts(u, w) then 1 else if u.restarted then 3 else 2
  }

  /** What is on record after restoring the previous runtime was tried from step n on, with
      `before` on record and others free to act before each step. */
  function RestoredTo(u: Undo, w: World, n: nat, before: Runtime): Runtime
  {
    if Restarts(u, w) then
      if u.finalized then PreviousOf(w) else if u.restarted then Over(w.normalized, w, n + 2) else w.normalized
    else if u.restored then PreviousOf(w) else Over(before, w, n)
  }

  /** And what a rollback ends with. */
  function Settled(u: Undo, w: World, n: nat, before: Runtime): Runtime
  {
    if Back(u, w) then RestoredTo(u, w, n, before) else Unloaded(u, w, n + Steps(u, w), RestoredTo(u, w, n, before))
  }

  lemma LastResort(u: Undo, unloaded: bool, w: World, n: nat, before: Runtime)
    requires InOrder(u, w) && !u.unloaded && !Back(u, w)
    ensures var v := u.(unloaded := unloaded);
            && InOrder(v, w) && Steps(v, w) == Steps(u, w) && RestoredTo(v, w, n, before) == RestoredTo(u, w, n, before)
            && Settled(v, w, n, before) == if unloaded then PreviousOf(w).(unloaded := true) else Over(RestoredTo(u, w, n, before), w, n + Steps(u, w))
  {
  }

  /** A rollback leaves the candidate on record exactly when it was committed, neither the
      previous runtime nor its unloaded form could be, and nobody else wrote. */
  lemma CandidateStaysExactly(u: Undo, w: World, n: nat, before: Runtime, candidate: Runtime)
    requires Strange(candidate, w) && InOrder(u, w)
    requires forall k :: w.other(k).Some? ==> w.other(k).value.runtime != candidate
    ensures Settled(u, w, n, before) == candidate <==>
            before == candidate && !u.restored && !u.unloaded && w.other(n).None? && w.other(n + 1).None?
  {
  }

  /** What another operation writes before the restoring is lost exactly when a commit of the
      restoring works. */
  lemma OthersLostExactly(u: Undo, w: World, n: nat, before: Runtime)
    requires InOrder(u, w) && w.other(n).Some? && Strange(w.other(n).value.runtime, w) && forall k :: k > n ==> w.other(k).None?
    ensures Settled(u, w, n, before) != w.other(n).value.runtime <==> u.restored || u.unloaded
  {
  }

  /** Undisturbed, any record but the previous runtime or its unloaded form takes two failures. */
  lemma RollbackNamesPrevious(u: Undo, w: World, n: nat, before: Runtime)
    requires InOrder(u, w) && (forall k :: w.other(k).None?)
    requires Settled(u, w, n, before) !in {PreviousOf(w), PreviousOf(w).(unloaded := true)}
    ensures !u.unloaded && (if u.restored then !u.restarted || !u.finalized else before != PreviousOf(w))
  {
  }

  /** Another operation acts before one of these steps. */
  predicate Disturbed(w: World, from: nat, to: nat)
  {
    exists n :: from <= n < to && w.other(n).Some?
  }

  function Disturb(h: Host, w: World, n: nat): Host
  {
    if w.other(n).None? then h else h.(runtime := w.other(n).value.runtime, serving := w.other(n).value.serving)
  }

  class Launch {
    const recipe: Recipe
    const world: World
    ghost const began: Host
    var host: Host
    var held: bool
    var step: nat
    var outcome: Outcome
    ghost var trace: seq<Event>
    /** Of a failure: its step. Of a rollback: the step at which the lock was released, the one
        at which restoring began, what was on record then, and what worked. */
    ghost var failedAt: nat
    ghost var released: nat
    ghost var undoFrom: nat
    ghost var undone: Runtime
    ghost var undo: Undo

    ghost predicate Valid()
      reads this
    {
      && Probed(trace) && host == Replay(trace, began, recipe, world)
      && Count(trace, Locked) <= 1 && Count(trace, Unlocked) == Count(trace, Locked) - (if held then 1 else 0)
    }

    ghost function FirstFailed(): Option<Effect>
      reads this
    {
      FirstFailure(trace)
    }

    constructor (recipe: Recipe, world: World, host: Host)
      ensures this.recipe == recipe && this.world == world && this.began == host == this.host
      ensures Fresh()
    {
      this.recipe, this.world, this.began, this.host := recipe, world, host, host;
      held, step, outcome, trace := false, 0, Running, [];
      failedAt, released, undoFrom, undone, undo := 0, 0, 0, host.runtime, Undo(false, false, false, false);
    }

    /** A launch not yet begun. */
    ghost predicate Fresh()
      reads this
    {
      Valid() && trace == [] && step == 0 && !held && outcome == Running && host == began
    }

    /** Another operation acts, if it does so now and the lock is free. */
    method Interfere()
      requires Valid()
      modifies this`host, this`trace
      ensures Valid() && SameLocks(old(trace), trace) && old(trace) <= trace && FirstFailure(trace) == FirstFailure(old(trace))
      ensures Untouched(old(trace)) ==> Untouched(trace)
      ensures host == (if held then old(host) else Disturb(old(host), world, step))
    {
      if !held && world.other(step).Some? {
        var other := world.other(step).value;
        OneMore(trace, Foreign(other.runtime, other.serving), began, recipe, world);
        trace := trace + [Foreign(other.runtime, other.serving)];
        host := host.(runtime := other.runtime, serving := other.serving);
      }
    }

    method Record(e: Effect, ok: bool)
      requires Valid()
      requires e == Commit(Candidate) ==> Did(Contract) in trace && Did(Endpoint) in trace
      modifies this`host, this`trace
      ensures Valid() && host == Act(e, ok, old(host), recipe, world)
      ensures SameLocks(old(trace), trace) && old(trace) <= trace
      ensures (ok ==> Did(e) in trace) && (Untouched(old(trace)) && e != StopEngines ==> Untouched(trace))
      ensures FirstFailure(trace) == if FirstFailure(old(trace)).Some? || ok then FirstFailure(old(trace)) else Some(e)
    {
      var event := if ok then Did(e) else Failed(e);
      OneMore(trace, event, began, recipe, world);
      trace := trace + [event];
      host := Act(e, ok, host, recipe, world);
    }

    /** Tries the next effect. While the lock is free, another operation may act first. */
    method Perform(e: Effect) returns (ok: bool)
      requires Valid()
      requires e == Commit(Candidate) ==> Did(Contract) in trace && Did(Endpoint) in trace
      requires e.RestartEngine? ==> !held // the launcher takes the lock itself
      modifies this`host, this`step, this`trace, this`failedAt
      ensures Valid() && ok == world.works(old(step)) && step == old(step) + 1
      ensures held ==> host == Act(e, ok, old(host), recipe, world)
      ensures !held ==> host == Act(e, ok, Disturb(old(host), world, old(step)), recipe, world)
      ensures SameLocks(old(trace), trace) && old(trace) <= trace
      ensures (ok ==> Did(e) in trace) && (Untouched(old(trace)) && e != StopEngines ==> Untouched(trace))
      ensures ok || FirstFailure(old(trace)).Some? ==> FirstFailure(trace) == FirstFailure(old(trace)) && failedAt == old(failedAt)
      ensures !ok && FirstFailure(old(trace)).None? ==> FirstFailure(trace) == Some(e) && failedAt == old(step)
    {
      Interfere();
      ok := world.works(step);
      if !ok && FirstFailure(trace).None? { failedAt := step; }
      Record(e, ok);
      step := step + 1;
    }

    method Lock()
      requires Valid() && !held && Count(trace, Locked) == 0
      modifies this`trace, this`held
      ensures Valid() && held && trace == old(trace) + [Locked]
      ensures Count(trace, Locked) == 1 && FirstFailure(trace) == FirstFailure(old(trace))
    {
      OneMore(trace, Locked, began, recipe, world);
      trace, held := trace + [Locked], true;
    }

    method Unlock()
      requires Valid() && held && Count(trace, Locked) == 1
      modifies this`trace, this`held
      ensures Valid() && !held && trace == old(trace) + [Unlocked]
      ensures Count(trace, Locked) == 1 && Count(trace, Unlocked) == 1 && FirstFailure(trace) == FirstFailure(old(trace))
    {
      OneMore(trace, Unlocked, began, recipe, world);
      trace, held := trace + [Unlocked], false;
    }

    /** Under the lock, one that leaves record and engine alone. */
    method PerformQuietly(e: Effect) returns (ok: bool)
      requires Valid() && held && FirstFailure(trace).None? && Quiet(e)
      modifies this`host, this`step, this`trace, this`failedAt
      ensures Valid() && ok == world.works(old(step)) && step == old(step) + 1
      ensures SameLocks(old(trace), trace) && old(trace) <= trace && (ok <==> FirstFailure(trace).None?)
      ensures ok ==> Did(e) in trace && host.did == old(host).did + [e]
      ensures !ok ==> FirstFailure(trace) == Some(e) && failedAt == old(step)
      ensures host.runtime == old(host).runtime && host.serving == old(host).serving
      ensures Untouched(old(trace)) ==> Untouched(trace)
    {
      ok := Perform(e);
    }

    /** Effects in order, under the lock, up to the first that fails. */
    method PerformAll(effects: seq<Effect>) returns (ok: bool)
      requires Valid() && held && FirstFailure(trace).None?
      requires forall i :: 0 <= i < |effects| ==> Quiet(effects[i])
      modifies this`host, this`step, this`trace, this`failedAt
      ensures Valid() && SameLocks(old(trace), trace) && old(trace) <= trace && (ok <==> FirstFailure(trace).None?)
      ensures ok ==> host.did == old(host).did + effects
      ensures ok ==> step == old(step) + |effects| && AllWork(world.works, old(step), step) && forall e :: e in effects ==> Did(e) in trace
      ensures !ok ==> step == failedAt + 1 && FailsIn(effects, world.works, old(step), failedAt, FirstFailure(trace))
      ensures host.runtime == old(host).runtime && host.serving == old(host).serving
      ensures Untouched(old(trace)) && StopEngines !in effects ==> Untouched(trace)
    {
      for i := 0 to |effects|
        invariant Valid() && SameLocks(old(trace), trace) && old(trace) <= trace && FirstFailure(trace).None?
        invariant step == old(step) + i && AllWork(world.works, old(step), step)
        invariant host.did == old(host).did + effects[..i]
        invariant forall k :: 0 <= k < i ==> Did(effects[k]) in trace
        invariant host.runtime == old(host).runtime && host.serving == old(host).serving
        invariant Untouched(old(trace)) && StopEngines !in effects ==> Untouched(trace)
      {
        assert effects[i] in effects;
        PrefixGrows(old(host).did, effects, i);
        ok := PerformQuietly(effects[i]);
        if !ok { return; }
      }
      assert effects[..|effects|] == effects;
      ok := true;
    }

    /** Starts the recipe, and the proxy behind the stable port. */
    method StartRecipe(p: Plan) returns (ok: bool)
      requires Proper(p) && Valid() && held && FirstFailure(trace).None?
      modifies this`host, this`step, this`trace, this`failedAt
      ensures Valid() && SameLocks(old(trace), trace) && (ok <==> FirstFailure(trace).None?)
      ensures ok ==> host.did == old(host).did + (p.start + [RunProxy])
      ensures ok ==> step == old(step) + |p.start| + 1 && AllWork(world.works, old(step), step)
      ensures ok ==> host.serving == TheRecipe && Did(Contract) in trace
      ensures !ok ==> step == failedAt + 1 && FailsIn(p.start + [RunProxy], world.works, old(step), failedAt, FirstFailure(trace))
      ensures host.runtime == old(host).runtime
    {
      ghost var works, from, start := world.works, step, p.start;
      ok := PerformAll(p.start);
      if !ok {
        FailsEarly(start, [RunProxy], works, from, failedAt, FirstFailure(trace));
        return;
      }
      OneFails(RunProxy, works, step);
      Regroup(old(host).did, start, [RunProxy]);
      ok := Perform(RunProxy);
      if !ok { FailsLate(start, [RunProxy], works, from, failedAt, FirstFailure(trace)); }
    }

    /** The same after stopping the engines that run. */
    method StartUp(p: Plan) returns (ok: bool)
      requires Proper(p) && Valid() && held && FirstFailure(trace).None?
      modifies this`host, this`step, this`trace, this`failedAt
      ensures Valid() && SameLocks(old(trace), trace) && (ok <==> FirstFailure(trace).None?)
      ensures ok ==> host.did == old(host).did + StartSteps(p)
      ensures ok ==> step == old(step) + |StartSteps(p)| && AllWork(world.works, old(step), step)
      ensures ok ==> host.serving == TheRecipe && Did(Contract) in trace
      ensures !ok ==> step == failedAt + 1 && FailsIn(StartSteps(p), world.works, old(step), failedAt, FirstFailure(trace))
      ensures host.runtime == old(host).runtime
    {
      ghost var works, from := world.works, step;
      OneFails(StopEngines, works, step);
      ok := Perform(StopEngines);
      if ok {
        Regroup(old(host).did, [StopEngines], p.start + [RunProxy]);
        ok := StartRecipe(p);
        if !ok { FailsLate([StopEngines], p.start + [RunProxy], works, from, failedAt, FirstFailure(trace)); }
      } else {
        FailsEarly([StopEngines], p.start + [RunProxy], works, from, failedAt, FirstFailure(trace));
      }
    }

    /** Records the proxy and the port. */
    method RecordProxy(p: Plan) returns (ok: bool)
      requires Proper(p) && Valid() && held && FirstFailure(trace).None?
      modifies this`host, this`step, this`trace, this`failedAt
      ensures Valid() && SameLocks(old(trace), trace) && old(trace) <= trace && (ok <==> FirstFailure(trace).None?)
      ensures ok ==> host.did == old(host).did + p.recording && host.serving == old(host).serving
      ensures ok ==> step == old(step) + |p.recording| && AllWork(world.works, old(step), step)
      ensures !ok ==> step == failedAt + (if p.removes then 2 else 1)
      ensures !ok ==> FailsIn(p.recording, world.works, old(step), failedAt, FirstFailure(trace))
      ensures host.runtime == old(host).runtime
    {
      ok := PerformAll(p.recording);
      if !ok && p.removes { Clean(UnrecordedProxy); }
    }

    /** Records the proxy and the port, and probes the endpoint. A proxy that could not be
        recorded is taken away at once by plans that say so. */
    method Connect(p: Plan) returns (ok: bool)
      requires Proper(p) && Valid() && held && FirstFailure(trace).None?
      modifies this`host, this`step, this`trace, this`failedAt
      ensures Valid() && SameLocks(old(trace), trace) && old(trace) <= trace && (ok <==> FirstFailure(trace).None?)
      ensures ok ==> host.did == old(host).did + (p.recording + p.probing)
      ensures ok ==> step == old(step) + |p.recording + p.probing| && AllWork(world.works, old(step), step)
      ensures ok ==> host.serving == old(host).serving && Did(Endpoint) in trace
      ensures !ok ==> step == failedAt + 1 || (step == failedAt + 2 && FirstFailure(trace).value in p.recording)
      ensures !ok ==> FailsIn(p.recording + p.probing, world.works, old(step), failedAt, FirstFailure(trace))
      ensures host.runtime == old(host).runtime
    {
      ghost var works, from := world.works, step;
      ok := RecordProxy(p);
      if !ok {
        FailsEarly(p.recording, p.probing, works, from, failedAt, FirstFailure(trace));
        return;
      }
      Regroup(old(host).did, p.recording, p.probing);
      ok := PerformAll(p.probing);
      if !ok { FailsLate(p.recording, p.probing, works, from, failedAt, FirstFailure(trace)); }
    }

    method CommitCandidate() returns (ok: bool)
      requires Valid() && held && FirstFailure(trace).None? && Did(Contract) in trace && Did(Endpoint) in trace
      modifies this`host, this`step, this`trace, this`failedAt
      ensures Valid() && SameLocks(old(trace), trace) && (ok <==> FirstFailure(trace).None?)
      ensures ok ==> host.runtime == CandidateOf(recipe) && host.phase == Active && host.serving == old(host).serving
      ensures ok ==> AllWork(world.works, old(step), step) && step == old(step) + 2
      ensures ok ==> host.did == old(host).did + ([Commit(Candidate)] + [Move(Active)])
      ensures !ok ==> step == failedAt + 1 && FailsIn([Commit(Candidate)] + [Move(Active)], world.works, old(step), failedAt, FirstFailure(trace))
      ensures !ok ==> host.runtime == if FirstFailure(trace) == Some(Move(Active)) then CandidateOf(recipe) else old(host).runtime
    {
      ghost var works, from := world.works, step;
      ok := WriteCandidate();
      if !ok {
        FailsEarly([Commit(Candidate)], [Move(Active)], works, from, failedAt, FirstFailure(trace));
        return;
      }
      OneFails(Move(Active), works, step);
      Regroup(old(host).did, [Commit(Candidate)], [Move(Active)]);
      ok := Perform(Move(Active));
      if !ok { FailsLate([Commit(Candidate)], [Move(Active)], works, from, failedAt, FirstFailure(trace)); }
    }

    method WriteCandidate() returns (ok: bool)
      requires Valid() && held && FirstFailure(trace).None? && Did(Contract) in trace && Did(Endpoint) in trace
      modifies this`host, this`step, this`trace, this`failedAt
      ensures Valid() && SameLocks(old(trace), trace) && (ok <==> FirstFailure(trace).None?) && step == old(step) + 1
      ensures host == if ok then old(host).(runtime := CandidateOf(recipe), did := old(host).did + [Commit(Candidate)]) else old(host)
      ensures ok ==> AllWork(world.works, old(step), step)
      ensures !ok ==> failedAt == old(step) && FailsIn([Commit(Candidate)], world.works, old(step), failedAt, FirstFailure(trace))
      ensures !ok ==> FirstFailure(trace) == Some(Commit(Candidate))
    {
      OneFails(Commit(Candidate), world.works, step);
      ok := Perform(Commit(Candidate));
    }

    /** From the switch to the end, or to what has to be rolled back. */
    method SwitchOver(p: Plan) returns (ok: bool)
      requires Proper(p) && Valid() && held && FirstFailure(trace).None?
      modifies this`host, this`step, this`trace, this`failedAt
      ensures Valid() && SameLocks(old(trace), trace) && (ok <==> FirstFailure(trace).None?)
      ensures ok ==> host.runtime == CandidateOf(recipe) && host.phase == Active && host.serving == TheRecipe
      ensures ok ==> AllWork(world.works, old(step), step) && step == old(step) + |Rest(p)|
      ensures ok ==> host.did == old(host).did + Rest(p)
      ensures !ok ==> step == failedAt + 1 || (step == failedAt + 2 && FirstFailure(trace).value in p.recording)
      ensures !ok ==> FailsIn(Rest(p), world.works, old(step), failedAt, FirstFailure(trace))
      ensures !ok ==> host.runtime == if FirstFailure(trace) == Some(Move(Active)) then CandidateOf(recipe) else old(host).runtime
    {
      ghost var works, from := world.works, step;
      ghost var a, b, c := StartSteps(p), p.recording + p.probing, [Commit(Candidate)] + [Move(Active)];
      ok := StartUp(p);
      if !ok {
        FailsElsewhere(a, works, from, failedAt, FirstFailure(trace), Move(Active));
        FailsEarly(a, b, works, from, failedAt, FirstFailure(trace));
        FailsEarly(a + b, c, works, from, failedAt, FirstFailure(trace));
        return;
      }
      ok := Connect(p);
      if !ok {
        FailsElsewhere(b, works, from + |a|, failedAt, FirstFailure(trace), Move(Active));
        FailsLate(a, b, works, from, failedAt, FirstFailure(trace));
        FailsEarly(a + b, c, works, from, failedAt, FirstFailure(trace));
        return;
      }
      Regroup(old(host).did, a, b);
      Regroup(old(host).did, a + b, c);
      ok := CommitCandidate();
      if !ok { FailsLate(a + b, c, works, from, failedAt, FirstFailure(trace)); }
    }

    /** One part of the cleanup. */
    method Clean(part: Part)
      requires Valid() && FirstFailure(trace).Some?
      modifies this`host, this`step, this`trace, this`failedAt
      ensures Valid() && SameLocks(old(trace), trace) && old(trace) <= trace && FirstFailure(trace) == FirstFailure(old(trace)) && failedAt == old(failedAt)
      ensures step == old(step) + 1
      ensures host.runtime == if held then old(host).runtime else Over(old(host).runtime, world, old(step))
      ensures held || world.other(old(step)).None? ==>
                host.serving == (if world.works(old(step)) && part.Proxy? && old(host).serving == TheRecipe then Nothing else old(host).serving)
                || part.UnrecordedProxy?
    {
      var _ := Perform(CleanUp(part));
    }

    /** Takes down what the launch has started; every part is tried. */
    method CleanFailedRuntime()
      requires Valid() && FirstFailure(trace).Some?
      modifies this`host, this`step, this`trace, this`failedAt
      ensures Valid() && SameLocks(old(trace), trace) && FirstFailure(trace) == FirstFailure(old(trace)) && failedAt == old(failedAt)
      ensures step == old(step) + 3
      ensures host.runtime == if held then old(host).runtime else Overwritten(old(host).runtime, world, old(step), step)
      ensures world.works(old(step)) && (held || !Disturbed(world, old(step), step)) ==> host.serving != TheRecipe
    {
      OverwrittenInThree(host.runtime, world, step);
      Clean(Proxy);
      Clean(RuntimeStop);
      Clean(Resources);
    }

    /** A commit of the rollback. */
    method Write(which: CommitKind) returns (ok: bool)
      requires Valid() && !held && FirstFailure(trace).Some? && which != Candidate
      modifies this`host, this`step, this`trace, this`failedAt
      ensures Valid() && SameLocks(old(trace), trace) && FirstFailure(trace) == FirstFailure(old(trace)) && failedAt == old(failedAt)
      ensures ok == world.works(old(step)) && step == old(step) + 1
      ensures host.runtime == if ok then Written(which, recipe, world) else Over(old(host).runtime, world, old(step))
      ensures host.serving == Disturb(old(host), world, old(step)).serving
    {
      ok := Perform(Commit(which));
    }

    /** Puts the previous runtime back, on record before it is started again. */
    method RestorePrevious() returns (ok: bool, ghost u: Undo)
      requires Valid() && !held && FirstFailure(trace).Some?
      modifies this`host, this`step, this`trace, this`failedAt
      ensures Valid() && SameLocks(old(trace), trace) && FirstFailure(trace) == FirstFailure(old(trace)) && failedAt == old(failedAt)
      ensures InOrder(u, world) && !u.unloaded && ok == Back(u, world) && u.restored == world.works(old(step))
      ensures step == old(step) + Steps(u, world) && host.runtime == RestoredTo(u, world, old(step), old(host).runtime)
      ensures ok && !Disturbed(world, old(step), step) ==> host.runtime.unloaded || host.serving == Previous
      ensures !u.restarted && !Disturbed(world, old(step) + 1, step) ==> host.serving == Disturb(old(host), world, old(step)).serving
    {
      u := Undo(false, false, false, false);
      var previous := PreviousOf(world);
      ok := Write(Restored);
      u := u.(restored := ok);
      if !ok || previous.unloaded { return; }
      if previous.recipe != "" || !world.knownEngine { return false, u; }
      ok := Perform(RestartEngine);
      u := u.(restarted := ok);
      if !ok { return; }
      ok := Write(Finalized);
      u := u.(finalized := ok);
    }

    /** Or records it as unloaded. */
    method RestoreOrMarkUnloaded()
      requires Valid() && !held && FirstFailure(trace).Some?
      modifies this`host, this`step, this`trace, this`failedAt, this`undoFrom, this`undone, this`undo
      ensures Valid() && SameLocks(old(trace), trace) && FirstFailure(trace) == FirstFailure(old(trace)) && failedAt == old(failedAt)
      ensures undoFrom == old(step) < step && undone == old(host).runtime
      ensures InOrder(undo, world) && undo.restored == world.works(undoFrom) && (undo.unloaded ==> world.works(step - 1))
      ensures host.runtime == Settled(undo, world, undoFrom, undone)
      ensures (Back(undo, world) || undo.unloaded) && !Disturbed(world, undoFrom, step) ==> host.runtime.unloaded || host.serving == Previous
      ensures Back(undo, world) && !undo.restarted && !Disturbed(world, undoFrom + 1, step) ==>
                host.serving == Disturb(old(host), world, undoFrom).serving
    {
      undoFrom, undone := step, host.runtime;
      var restored;
      restored, undo := RestorePrevious();
      if !restored { MarkUnloaded(); }
    }

    method MarkUnloaded()
      requires Valid() && !held && FirstFailure(trace).Some?
      requires InOrder(undo, world) && !undo.unloaded && !Back(undo, world)
      requires step == undoFrom + Steps(undo, world) && host.runtime == RestoredTo(undo, world, undoFrom, undone)
      modifies this`host, this`step, this`trace, this`failedAt, this`undo
      ensures Valid() && SameLocks(old(trace), trace) && FirstFailure(trace) == FirstFailure(old(trace)) && failedAt == old(failedAt)
      ensures InOrder(undo, world) && !Back(undo, world) && undo.restored == old(undo).restored && step == old(step) + 1
      ensures host.runtime == Settled(undo, world, undoFrom, undone)
      ensures undo.unloaded ==> world.works(step - 1) && host.runtime.unloaded
    {
      ghost var u := undo;
      var unloaded := Write(SafelyUnloaded);
      undo := undo.(unloaded := unloaded);
      LastResort(u, unloaded, world, undoFrom, undone);
    }

    /** What a rollback promises, also when others act once the lock is free. */
    ghost predicate Undone(plan: Plan, atFailure: Runtime)
      reads this
    {
      && FirstFailure(trace).Some? && failedAt < released
      && (released == failedAt + (if plan.removes then 1 else 4) || FirstFailure(trace).value in plan.recording)
      && undoFrom == released + (if plan.removes then 3 else 0) && undoFrom < step
      && InOrder(undo, world) && undo.restored == world.works(undoFrom) && (undo.unloaded ==> world.works(step - 1))
      && undone == Overwritten(atFailure, world, released, undoFrom)
      && host.runtime == Settled(undo, world, undoFrom, undone)
      && ((Back(undo, world) || undo.unloaded) && !Disturbed(world, undoFrom, step) ==> host.runtime.unloaded || host.serving == Previous)
      && (Back(undo, world) && !undo.restarted && !Disturbed(world, undoFrom + 1, step) && world.other(undoFrom).Some? ==>
            host.serving == world.other(undoFrom).value.serving)
    }

    /** What a launch leaves behind. */
    ghost predicate Ended(plan: Plan)
      reads this
    {
      && Valid() && !held && Count(trace, Locked) == 1 && Count(trace, Unlocked) == 1
      && (outcome.Succeeded? <==> FirstFailure(trace).None?)
      && (outcome.Succeeded? ==> host.did == began.did + Script(plan))
      && (outcome.Succeeded? ==> AllWork(world.works, 0, |Script(plan)|) && host.runtime == CandidateOf(recipe) && host.serving == TheRecipe && host.phase == Active)
      && (!outcome.Succeeded? ==> FailsIn(Script(plan), world.works, 0, failedAt, FirstFailure(trace)))
      && (outcome.FailedBefore? <==> FirstFailure(trace).Some? && Harmless(FirstFailure(trace).value))
      && (outcome.FailedBefore? ==> host.runtime == began.runtime && host.serving == began.serving
                                    && Untouched(trace))
      && (outcome.RolledBack? <==> FirstFailure(trace).Some? && !Harmless(FirstFailure(trace).value))
      && (outcome.RolledBack? ==> Undone(plan, if FirstFailure(trace) == Some(Move(Active)) then CandidateOf(recipe) else began.runtime))
    }

    /** This machine's recipes are cleaned up after the lock is free, managed ones before. */
    method RollBack(plan: Plan)
      requires Valid() && held && Count(trace, Locked) == 1 && FirstFailure(trace).Some?
      requires failedAt < step && (step == failedAt + 1 || FirstFailure(trace).value in plan.recording)
      modifies this
      ensures Valid() && !held && Count(trace, Locked) == 1 && Count(trace, Unlocked) == 1
      ensures FirstFailure(trace) == FirstFailure(old(trace)) && failedAt == old(failedAt)
      ensures outcome == RolledBack && Undone(plan, old(host).runtime)
    {
      TakeDown(plan);
      RestoreOrMarkUnloaded();
      outcome := RolledBack;
    }

    method TakeDown(plan: Plan)
      requires Valid() && held && Count(trace, Locked) == 1 && FirstFailure(trace).Some?
      modifies this`host, this`held, this`step, this`trace, this`failedAt, this`released
      ensures Valid() && !held && Count(trace, Locked) == 1 && Count(trace, Unlocked) == 1
      ensures FirstFailure(trace) == FirstFailure(old(trace)) && failedAt == old(failedAt)
      ensures released == old(step) + (if plan.removes then 0 else 3) && step == old(step) + 3
      ensures host.runtime == Overwritten(old(host).runtime, world, released, step)
    {
      if plan.removes {
        Unlock();
        released := step;
        CleanFailedRuntime();
      } else {
        CleanFailedRuntime();
        Unlock();
        released := step;
      }
    }

    /** A launch that could not be prepared ends as it began. */
    method FinishBefore(plan: Plan)
      requires Proper(plan) && Valid() && held && Count(trace, Locked) == 1
      requires FailsIn(plan.before, world.works, 0, failedAt, FirstFailure(trace))
      requires host.runtime == began.runtime && host.serving == began.serving && Untouched(trace)
      modifies this
      ensures Ended(plan)
    {
      FailsEarly(plan.before, Rest(plan), world.works, 0, failedAt, FirstFailure(trace));
      outcome := FailedBefore;
      Unlock();
    }

    /** And one that could be switches over, or rolls back. */
    method Finish(plan: Plan)
      requires Proper(plan) && Valid() && held && Count(trace, Locked) == 1 && FirstFailure(trace).None?
      requires step == |plan.before| && AllWork(world.works, 0, step) && host.runtime == began.runtime && host.did == began.did + plan.before
      modifies this
      ensures Ended(plan)
    {
      ghost var works := world.works;
      Regroup(began.did, plan.before, Rest(plan));
      var ok := SwitchOver(plan);
      if ok {
        outcome := Succeeded;
        Unlock();
      } else {
        FailsLate(plan.before, Rest(plan), works, 0, failedAt, FirstFailure(trace));
        RestIsAfterSwitch(plan);
        RollBack(plan);
      }
    }

    method Launching(plan: Plan)
      requires Fresh() && Proper(plan)
      modifies this
      ensures Ended(plan)
    {
      Lock();
      QuietBefore(plan);
      var prepared := PerformAll(plan.before);
      if prepared {
        Finish(plan);
      } else {
        FinishBefore(plan);
      }
    }

    method RunLocalRecipe()
      requires Fresh()
      modifies this
      ensures Ended(LocalPlan(recipe, world))
      ensures outcome.Succeeded? ==> Occur(EarlyMilestones(recipe, world.reuses) + LocalMilestones(), Worked(trace))
      ensures outcome.Succeeded? ==> forall kind, node :: Uses(recipe, kind, node) ==> Claim(kind, node) in Worked(trace)
      ensures outcome.Succeeded? ==> host.passed == began.passed + LocalBoundaries(recipe, world.reuses)
    {
      Launching(LocalPlan(recipe, world));
      if outcome.Succeeded? {
        DidIsWorked(trace, began, recipe, world);
        SameRest(began.did, Worked(trace), Script(LocalPlan(recipe, world)));
        LocalMilestonesOccur(recipe, world);
        BoundariesArePassed(trace, began, recipe, world);
        ScriptBoundaries(recipe, world);
        forall kind, node | Uses(recipe, kind, node) ensures Claim(kind, node) in Worked(trace) {
          ResourcesAreClaimed(recipe, world.reuses, kind, node);
          assert Claim(kind, node) in Script(LocalPlan(recipe, world));
        }
      }
    }

    method RunManagedRecipe()
      requires Fresh()
      modifies this
      ensures Ended(ManagedPlan(recipe))
      ensures outcome.Succeeded? ==> forall kind, node :: UsesManaged(recipe, kind, node) ==> Claim(kind, node) in Worked(trace)
      ensures outcome.Succeeded? ==> Occur(ManagedEarlyMilestones(recipe.peers) + ManagedMilestones(recipe.peers), Worked(trace))
    {
      Launching(ManagedPlan(recipe));
      if outcome.Succeeded? {
        DidIsWorked(trace, began, recipe, world);
        SameRest(began.did, Worked(trace), Script(ManagedPlan(recipe)));
        ManagedMilestonesOccur(recipe);
        forall kind, node | UsesManaged(recipe, kind, node) ensures Claim(kind, node) in Worked(trace) {
          ManagedResourcesAreClaimed(recipe, kind, node);
          assert Claim(kind, node) in Script(ManagedPlan(recipe));
        }
      }
    }
  }

  lemma ActiveIsLast(p: Plan)
    ensures Script(p) != [] && Script(p)[|Script(p)| - 1] == Move(Active)
  {
  }

  lemma StopIsNext(p: Plan)
    ensures |Script(p)| > |p.before| && Script(p)[|p.before|] == StopEngines
  {
    assert StartSteps(p)[0] == StopEngines;
  }

  lemma SamePlan(r: Recipe, v: World, w: World)
    requires v.reuses == w.reuses
    ensures LocalPlan(r, v) == LocalPlan(r, w)
  {
  }

  /** A launch that ended with its last step, after which nothing worked and nobody came. */
  lemma StaysOnRecord(launch: Launch, plan: Plan)
    requires launch.Ended(plan) && Script(plan) != [] && Script(plan)[|Script(plan)| - 1] == Move(Active)
    requires forall n: nat :: launch.world.works(n) <==> n < |Script(plan)| - 1
    requires forall n: nat :: launch.world.other(n).None?
    ensures launch.outcome == RolledBack && launch.FirstFailed() == Some(Move(Active)) && launch.host.runtime == CandidateOf(launch.recipe)
  {
    var last: nat := |Script(plan)| - 1;
    assert !AllWork(launch.world.works, 0, last + 1) by { assert !launch.world.works(last); }
    FailsAlone(Script(plan), launch.world.works, last, launch.failedAt, launch.FirstFailed());
    UndisturbedStays(CandidateOf(launch.recipe), launch.world, launch.released, launch.undoFrom);
  }

  /** A launch that ended when it stopped the engines, with nothing loaded before. Somebody
      came while the lock was free. */
  lemma OthersOverwritten(launch: Launch, plan: Plan, loaded: Runtime)
    requires launch.Ended(plan) && plan.removes && StopEngines !in plan.recording && PreviousOf(launch.world).unloaded
    requires |Script(plan)| > |plan.before| && Script(plan)[|plan.before|] == StopEngines
    requires forall n: nat :: launch.world.works(n) <==> n != |plan.before|
    requires forall n: nat :: launch.world.other(n) == if n == |plan.before| + 4 then Some(Interference(loaded, Others)) else None
    ensures launch.outcome == RolledBack && launch.undoFrom == |plan.before| + 4
    ensures launch.host.serving == Others && launch.host.runtime == PreviousOf(launch.world)
  {
    var stop: nat := |plan.before|;
    assert !AllWork(launch.world.works, 0, |Script(plan)|) by { assert !launch.world.works(stop); }
    FailsAlone(Script(plan), launch.world.works, stop, launch.failedAt, launch.FirstFailed());
  }

  lemma FailsAlone(effects: seq<Effect>, works: nat -> bool, n: nat, at: nat, failure: Option<Effect>)
    requires n < |effects| && !works(n) && FailsIn(effects, works, 0, at, failure) && forall k: nat :: k < n ==> works(k)
    ensures at == n && failure == Some(effects[n])
  {
  }

  /** A launch in which everything works up to the move to active, and nothing after it: the
      recipe was committed and taken down, and stays on record. */
  method CandidateStaysRun(recipe: Recipe, previous: Runtime, other: Runtime) returns (launch: Launch)
    requires previous != CandidateOf(recipe)
    ensures launch.outcome == RolledBack && launch.FirstFailed() == Some(Move(Active)) && launch.host.runtime == CandidateOf(recipe)
  {
    var quiet := World(n => true, n => None, false, Some(previous), true, other, Nothing);
    var plan := LocalPlan(recipe, quiet);
    ActiveIsLast(plan);
    var last: nat := |Script(plan)| - 1;
    var world := quiet.(works := n => n < last);
    SamePlan(recipe, quiet, world);
    launch := new Launch(recipe, world, Host(previous, Previous, Preparing, {}, [], []));
    launch.RunLocalRecipe();
    StaysOnRecord(launch, plan);
  }

  /** A launch whose engine stop fails while nothing is loaded. Another operation takes the
      free lock, loads a model and serves it; the rollback then records that nothing is
      loaded. */
  method OverwritingRun(recipe: Recipe, unloaded: Runtime, loaded: Runtime) returns (launch: Launch)
    requires unloaded.unloaded && !loaded.unloaded
    ensures launch.outcome == RolledBack && launch.world.other(launch.undoFrom) == Some(Interference(loaded, Others))
    ensures launch.host.serving == Others && launch.host.runtime == unloaded
  {
    var quiet := World(n => true, n => None, false, Some(unloaded), true, unloaded, Previous);
    var plan := LocalPlan(recipe, quiet);
    var stop: nat := |plan.before|;
    StopIsNext(plan);
    var world := quiet.(works := n => n != stop, other := n => if n == stop + 4 then Some(Interference(loaded, Others)) else None);
    SamePlan(recipe, quiet, world);
    launch := new Launch(recipe, world, Host(unloaded, Previous, Preparing, {}, [], []));
    launch.RunLocalRecipe();
    assert StopEngines !in plan.recording;
    OthersOverwritten(launch, plan, loaded);
  }

  lemma {:induction false} UndisturbedStays(x: Runtime, w: World, from: nat, end: nat)
    requires !Disturbed(w, from, end)
    ensures Overwritten(x, w, from, end) == x
    decreases end
  {
    if from < end {
      assert w.other(end - 1).None?;
      UndisturbedStays(x, w, from, end - 1);
    }
  }
}

/** Changing the display: persist a way back, apply, then confirm or roll back.
    The machine has one event per effect on disk, display or memory, so that a crash can
    fall between any two of them; the class performs the events as the handlers do. */
module Display {

  datatype Option<T> = None | Some(value: T)

  datatype Mode = Mode(layout: string, output: string, width: int, height: int)

  predicate Restorable(m: Mode)
  {
    m.width > 0 && m.height > 0 && m.output != ""
  }

  /** The durable record, and the same data in memory. */
  datatype Change = Change(token: string, selected: Mode, previous: Mode)

  /** A change awaiting confirmation: failed rollbacks so far, and retry timers armed. */
  datatype Pending = Pending(change: Change, attempts: nat, retries: nat)

  /** Where the holder of displayMu is, between two effects. */
  datatype Doing = Idle | Persisted(c: Change) | ApplyFailed | Applied(c: Change) | Reverted | Saved

  const MAX_ATTEMPTS := 30

  /** `pref` is the preference in memory, `file` the one in the state file, `defaults` what the
      layout policy falls back to when it cannot show a preference. Bookkeeping: `safe` are
      the modes shown or preferred at the start, the defaults, and the confirmed ones; `used`
      the tokens handed out; `settled` the mode a confirm left on screen, until another mode
      is applied on purpose. */
  datatype World = World(
    up: bool, disk: Option<Change>, pending: Option<Pending>, doing: Doing, shown: Mode, pref: Mode, file: Mode,
    defaults: set<Mode>, safe: set<Mode>, used: set<string>, confirmed: set<string>, settled: Option<Mode>)

  datatype Event =
    | SetPersist(token: string, selected: Mode, ok: bool)
    | SetApply(ok: bool)
    | SetClear(ok: bool)
    | SetCommit
    | RollbackApply(token: string, ok: bool)
    | RollbackClear(ok: bool)
    | ConfirmSave(token: string, ok: bool)
    | ConfirmClear(ok: bool, restored: bool)
    | Normalize(fallback: Option<Mode>, ok: bool)
    | SaveAnother
    | Crash
    | Restart(readable: bool)

  predicate Matches(w: World, token: string)
  {
    w.pending.Some? && w.pending.value.change.token == token
  }

  predicate Enabled(w: World, e: Event)
  {
    match e
    case Crash => w.up
    case Restart(_) => !w.up
    case SetPersist(token, _, _) => w.up && w.doing.Idle? && w.pending.None? && Restorable(w.shown) && token != "" && token !in w.used
    case SetApply(_) => w.up && w.doing.Persisted?
    case SetClear(_) => w.up && w.doing.ApplyFailed?
    case SetCommit => w.up && w.doing.Applied?
    case RollbackApply(token, _) => w.up && w.doing.Idle? && Matches(w, token)
    case RollbackClear(_) => w.up && w.doing.Reverted? && w.pending.Some?
    case ConfirmSave(token, _) => w.up && w.doing.Idle? && Matches(w, token)
    case ConfirmClear(_, _) => w.up && w.doing.Saved? && w.pending.Some?
    case Normalize(fallback, _) => w.up && w.doing.Idle? && w.pending.None? && (fallback.Some? ==> fallback.value in w.defaults)
    case SaveAnother => w.up
  }

  /** A failed rollback counts, and below the limit arms one more retry timer. */
  function Retry(p: Pending): Pending
  {
    Pending(p.change, p.attempts + 1, if p.attempts + 1 < MAX_ATTEMPTS then p.retries + 1 else p.retries)
  }

  function Apply(w: World, e: Event): World
    requires Enabled(w, e)
  {
    match e
    case Crash => w.(up := false, pending := None, doing := Idle)
    case Restart(readable) =>
      w.(up := true, pref := w.file,
         pending := if readable && w.disk.Some? && w.disk.value.token != "" && Restorable(w.disk.value.previous)
                    then Some(Pending(w.disk.value, 0, 0)) else None)
    case SetPersist(token, selected, ok) =>
      var c := Change(token, selected, w.shown);
      if ok then w.(disk := Some(c), doing := Persisted(c), used := w.used + {token}) else w.(used := w.used + {token})
    case SetApply(ok) =>
      if ok then w.(shown := w.doing.c.selected, doing := Applied(w.doing.c), settled := None) else w.(doing := ApplyFailed)
    case SetClear(ok) => w.(doing := Idle, disk := if ok then None else w.disk)
    case SetCommit => w.(doing := Idle, pending := Some(Pending(w.doing.c, 0, 0)))
    case RollbackApply(_, ok) =>
      if ok then w.(shown := w.pending.value.change.previous, doing := Reverted)
      else w.(pending := Some(Retry(w.pending.value)))
    case RollbackClear(ok) =>
      if ok then w.(disk := None, pending := None, doing := Idle) else w.(doing := Idle)
    case ConfirmSave(_, ok) => // memory changes before the save
      var s := w.pending.value.change.selected;
      if ok then w.(pref := s, file := s, doing := Saved) else w.(pref := s)
    case ConfirmClear(ok, restored) =>
      var c := w.pending.value.change;
      if ok then
        w.(disk := None, pending := None, doing := Idle, safe := w.safe + {c.selected},
           confirmed := w.confirmed + {c.token}, settled := if w.shown == c.selected then Some(c.selected) else None)
      else w.(pref := c.previous, file := if restored then c.previous else w.file, doing := Idle)
    case Normalize(fallback, ok) =>
      if ok then w.(shown := if fallback.Some? then fallback.value else w.pref, settled := None) else w
    case SaveAnother => w.(file := w.pref)
  }

  // ---------------------------------------------------------------- over every run

  /** What holds whatever fails. */
  ghost predicate Ledger(w: World)
  {
    && w.defaults <= w.safe && w.confirmed <= w.used
    && (w.disk.Some? ==> Restorable(w.disk.value.previous) && w.disk.value.token != ""
                         && w.disk.value.token in w.used && w.disk.value.token !in w.confirmed)
    && (w.settled.Some? ==> w.shown == w.settled.value && (w.disk.Some? ==> w.disk.value.previous == w.shown))
    && (!w.up ==> w.pending.None? && w.doing.Idle?)
    && (w.pending.Some? ==>
          var p := w.pending.value;
          w.disk == Some(p.change) && p.retries == (if p.attempts < MAX_ATTEMPTS then p.attempts else MAX_ATTEMPTS - 1))
    && (match w.doing
        case Idle => true
        case Persisted(c) => w.disk == Some(c) && w.pending.None? && w.shown == c.previous
        case ApplyFailed => w.pending.None? && (w.disk.Some? ==> w.shown == w.disk.value.previous) && w.disk.Some?
        case Applied(c) => w.disk == Some(c) && w.pending.None? && w.shown == c.selected
        case Reverted => w.pending.Some? && w.shown == w.pending.value.change.previous
        case Saved => w.pending.Some?)
  }

  /** The promise: the screen is safe, or a durable record leads back to a safe mode. */
  ghost predicate Promise(w: World)
  {
    w.shown in w.safe || (w.disk.Some? && w.disk.value.previous in w.safe && Restorable(w.disk.value.previous))
  }

  /** And every record does so. */
  ghost predicate Safety(w: World)
  {
    Promise(w) && (w.disk.Some? ==> w.disk.value.previous in w.safe)
  }

  /** When an event keeps the promise. A change must not take over a record that is on disk
      while an unconfirmed mode is on screen; a normalization must not read an unconfirmed
      preference, unless a record is on disk; a confirm must not drop the record of another
      unconfirmed mode than its own. */
  predicate Keeps(w: World, e: Event)
    requires Enabled(w, e)
  {
    match e
    case SetPersist(_, _, ok) => ok ==> w.disk.None? || w.shown in w.safe
    case Normalize(fallback, ok) => ok && fallback.None? ==> w.disk.Some? || w.pref in w.safe
    case ConfirmClear(ok, _) => ok ==> w.shown in w.safe || w.shown == w.pending.value.change.selected
    case _ => true
  }

  lemma EventKeepsLedger(w: World, e: Event)
    requires Ledger(w) && Enabled(w, e)
    ensures Ledger(Apply(w, e))
  {}

  /** Each condition is exact. */
  lemma EventKeepsExactly(w: World, e: Event)
    requires Ledger(w) && Safety(w) && Enabled(w, e)
    ensures Keeps(w, e) ==> Safety(Apply(w, e))
    ensures !Keeps(w, e) ==> !Promise(Apply(w, e))
  {}

  ghost predicate Run(w: World, events: seq<Event>, v: World)
    decreases |events|
  {
    if events == [] then w == v
    else Enabled(w, events[0]) && Run(Apply(w, events[0]), events[1..], v)
  }

  /** The promise holds at every point of the run, each of which may be its last. */
  ghost predicate PromiseThroughout(w: World, events: seq<Event>)
    decreases |events|
  {
    Promise(w) && (events != [] && Enabled(w, events[0]) ==> PromiseThroughout(Apply(w, events[0]), events[1..]))
  }

  predicate KeepsThroughout(w: World, events: seq<Event>)
    decreases |events|
  {
    events != [] && Enabled(w, events[0]) ==> Keeps(w, events[0]) && KeepsThroughout(Apply(w, events[0]), events[1..])
  }

  predicate Start(w: World)
  {
    w.up && w.disk.None? && w.pending.None? && w.doing.Idle? && w.pref == w.file && w.safe == {w.shown, w.pref} + w.defaults
    && w.used == {} && w.confirmed == {} && w.settled.None?
  }

  lemma StartIsSafe(w: World)
    requires Start(w)
    ensures Ledger(w) && Safety(w)
  {}

  lemma {:induction false} RunKeepsLedger(w: World, events: seq<Event>, v: World)
    requires Ledger(w) && Run(w, events, v)
    ensures Ledger(v)
    decreases |events|
  {
    if events != [] {
      EventKeepsLedger(w, events[0]);
      RunKeepsLedger(Apply(w, events[0]), events[1..], v);
    }
  }

  lemma {:induction false} SurvivesExactly(w: World, events: seq<Event>, v: World)
    requires Ledger(w) && Safety(w) && Run(w, events, v)
    ensures PromiseThroughout(w, events) <==> KeepsThroughout(w, events)
    ensures KeepsThroughout(w, events) ==> Safety(v)
    decreases |events|
  {
    if events != [] {
      var next := Apply(w, events[0]);
      EventKeepsLedger(w, events[0]);
      EventKeepsExactly(w, events[0]);
      if Keeps(w, events[0]) { SurvivesExactly(next, events[1..], v); }
    }
  }

  /** From the start, through crashes, failures and records that cannot be read: the promise
      holds at every point exactly when each event met its condition. */
  lemma PromiseSurvivesExactly(w: World, events: seq<Event>, v: World)
    requires Start(w) && Run(w, events, v)
    ensures PromiseThroughout(w, events) <==> KeepsThroughout(w, events)
  {
    StartIsSafe(w);
    SurvivesExactly(w, events, v);
  }

  // What the daemon itself could test before a change: is a record on disk while nothing is
  // pending? `allow` says what it then does.

  predicate Allowed(w: World, events: seq<Event>, allow: bool -> bool)
    decreases |events|
  {
    events != [] && Enabled(w, events[0]) ==>
      && (events[0].SetPersist? ==> allow(w.disk.Some?))
      && (events[0].Normalize? && events[0].fallback.None? ==> w.pref in w.safe)
      && Allowed(Apply(w, events[0]), events[1..], allow)
  }

  /** The screen shows no mode but a safe one and the record's own. */
  predicate Known(w: World)
  {
    w.disk.Some? ==> w.shown in w.safe || w.shown == w.disk.value.selected
  }

  lemma {:induction false} RefusingIsSafe(w: World, events: seq<Event>, v: World, allow: bool -> bool)
    requires Ledger(w) && Safety(w) && Known(w) && Run(w, events, v) && Allowed(w, events, allow) && !allow(true)
    ensures KeepsThroughout(w, events) && Safety(v)
    decreases |events|
  {
    if events != [] {
      EventKeepsLedger(w, events[0]);
      EventKeepsExactly(w, events[0]);
      RefusingIsSafe(Apply(w, events[0]), events[1..], v, allow);
    }
  }

  /** With confirmed preferences, an unconfirmed mode on screen always has a durable record
      that leads to a safe one, if no change is begun over a record that was not recovered. */
  lemma UnsafeModeHasWayBack(w: World, events: seq<Event>, v: World, allow: bool -> bool)
    requires Start(w) && Run(w, events, v) && Allowed(w, events, allow) && !allow(true)
    ensures PromiseThroughout(w, events)
    ensures v.shown !in v.safe ==> v.disk.Some? && v.disk.value.previous in v.safe && Restorable(v.disk.value.previous)
  {
    StartIsSafe(w);
    RefusingIsSafe(w, events, v, allow);
    PromiseSurvivesExactly(w, events, v);
  }

  const HD := Mode("single", "HDMI-1", 1920, 1080)
  const LOW := Mode("single", "HDMI-1", 800, 600)
  const TINY := Mode("single", "HDMI-1", 640, 480)
  const FRESH := World(true, None, None, Idle, HD, HD, HD, {}, {HD}, {}, {}, None)

  /** And only then: a daemon that allows first changes, and also changes over such a record
      as this one does, has a run from the start that breaks the promise. */
  lemma RefusingExactly(allow: bool -> bool)
    requires allow(false)
    ensures !allow(true) <==> forall w, events, v :: Start(w) && Run(w, events, v) && Allowed(w, events, allow) ==> Promise(v)
  {
    if allow(true) {
      var v := UnreadableRecordRun(allow);
    } else {
      forall w, events, v | Start(w) && Run(w, events, v) && Allowed(w, events, allow) ensures Promise(v) {
        UnsafeModeHasWayBack(w, events, v, allow);
      }
    }
  }

  /** A change applied, the daemon restarted over an unreadable record, and a second change
      begun: the only record now leads to the mode nobody confirmed. */
  lemma UnreadableRecordRun(allow: bool -> bool) returns (v: World)
    requires allow(false) && allow(true)
    ensures Start(FRESH) && !Promise(v)
    ensures exists events :: Run(FRESH, events, v) && Allowed(FRESH, events, allow)
  {
    var w1 := Apply(FRESH, SetPersist("t1", LOW, true));
    var w2 := Apply(w1, SetApply(true));
    var w3 := Apply(w2, Crash);
    var w4 := Apply(w3, Restart(false));
    v := Apply(w4, SetPersist("t2", TINY, true));
    var events := OneBefore(v, SetPersist("t2", TINY, true), w4, [], v, allow);
    events := OneBefore(w4, Restart(false), w3, events, v, allow);
    events := OneBefore(w3, Crash, w2, events, v, allow);
    events := OneBefore(w2, SetApply(true), w1, events, v, allow);
    events := OneBefore(w1, SetPersist("t1", LOW, true), FRESH, events, v, allow);
  }

  lemma OneBefore(after: World, e: Event, w: World, rest: seq<Event>, v: World, allow: bool -> bool) returns (events: seq<Event>)
    requires Enabled(w, e) && Apply(w, e) == after && Run(after, rest, v) && Allowed(after, rest, allow)
    requires !e.Normalize? && (e.SetPersist? ==> allow(w.disk.Some?))
    ensures Run(w, events, v) && Allowed(w, events, allow)
  {
    events := [e] + rest;
    assert events[1..] == rest;
  }

  /** A change of the display, begun and applied. */
  function Changed(): World
  {
    Apply(Apply(Apply(FRESH, SetPersist("t", LOW, true)), SetApply(true)), SetCommit)
  }

  /** A confirm of it that saved the preference, then a crash and a restart. */
  function Recovered(): World
  {
    Apply(Apply(Apply(Changed(), ConfirmSave("t", true)), Crash), Restart(true))
  }

  /** A confirm that saved the preference and was cut short: the record is rolled back after
      the restart, the preference is not, and the next normalization shows it. */
  lemma LeftPreferenceExample()
    ensures var w3 := Apply(Apply(Recovered(), RollbackApply("t", true)), RollbackClear(true));
            && Start(FRESH) && Enabled(w3, Normalize(None, true)) && Safety(w3) && w3.shown == HD && w3.pref == LOW
            && !Keeps(w3, Normalize(None, true)) && !Promise(Apply(w3, Normalize(None, true)))
  {}

  /** No crash is needed: a save that fails has changed the preference in memory. */
  lemma FailedSaveExample()
    ensures var w2 := Apply(Apply(Apply(Changed(), ConfirmSave("t", false)), RollbackApply("t", true)), RollbackClear(true));
            && Start(FRESH) && Enabled(w2, Normalize(None, true)) && w2.shown == HD && w2.pref == LOW && w2.file == HD
            && !Promise(Apply(w2, Normalize(None, true)))
  {}

  /** A crash anywhere, then a restart that reads its record: either the screen is safe and
      nothing is pending, or the recovery timer's rollback leads to a safe mode. */
  lemma CrashThenRecover(w: World)
    requires Ledger(w) && Safety(w) && w.up
    ensures var r := Apply(Apply(w, Crash), Restart(true));
            if r.pending.None? then r.shown in r.safe
            else
              var token := r.pending.value.change.token;
              Enabled(r, RollbackApply(token, true)) && Apply(r, RollbackApply(token, true)).shown in r.safe
  {}

  /** A confirmed change is over: no later event can make its token pending again, so no
      timer, revert call or restart that carries it does anything. If the selected mode was on
      screen when it was confirmed, it stays until another change is applied or the layout
      is normalized. */
  lemma {:induction false} ConfirmedIsNeverUndone(w: World, events: seq<Event>, v: World, token: string)
    requires Ledger(w) && token in w.confirmed && Run(w, events, v)
    ensures token in v.confirmed && !Matches(v, token)
    ensures forall ok :: !Enabled(v, RollbackApply(token, ok))
    ensures w.settled.Some? && (forall i :: 0 <= i < |events| ==> !events[i].SetApply? && !events[i].Normalize? && !events[i].ConfirmClear?)
            ==> v.settled == w.settled && v.shown == w.shown
    decreases |events|
  {
    if events != [] {
      EventKeepsLedger(w, events[0]);
      ConfirmedIsNeverUndone(Apply(w, events[0]), events[1..], v, token);
    }
  }

  /** A rollback that showed the previous mode but could not clear its record leaves the
      change pending, and a confirm then succeeds with the previous mode on screen. */
  lemma ConfirmOverPreviousExample()
    ensures var w1 := Apply(Apply(Apply(FRESH, SetPersist("t", LOW, true)), SetApply(true)), SetCommit);
            var w2 := Apply(Apply(w1, RollbackApply("t", true)), RollbackClear(false));
            var w3 := Apply(Apply(w2, ConfirmSave("t", true)), ConfirmClear(true, true));
            && Start(FRESH) && Enabled(w2, ConfirmSave("t", true))
            && "t" in w3.confirmed && w3.shown == HD && w3.pref == LOW && w3.settled.None?
  {}

  function Failures(events: seq<Event>, token: string): nat
  {
    if events == [] then 0 else Failures(events[1..], token) + if events[0] == RollbackApply(token, false) then 1 else 0
  }

  /** A change that was ended, or never begun in this daemon run. */
  predicate Over(w: World, token: string)
  {
    token in w.used && !Matches(w, token) && (w.doing.Persisted? || w.doing.Applied? ==> w.doing.c.token != token)
  }

  lemma {:induction false} OverStaysOver(w: World, events: seq<Event>, v: World, token: string)
    requires Ledger(w) && Over(w, token) && Run(w, events, v) && Crash !in events && w.up
    ensures !Matches(v, token)
    decreases |events|
  {
    if events != [] {
      assert events[0] != Crash;
      EventKeepsLedger(w, events[0]);
      OverStaysOver(Apply(w, events[0]), events[1..], v, token);
    }
  }

  lemma {:induction false} AttemptsCount(w: World, events: seq<Event>, v: World, token: string)
    requires Ledger(w) && Matches(w, token) && Run(w, events, v) && Matches(v, token) && Crash !in events && w.up
    ensures v.pending.value.attempts == w.pending.value.attempts + Failures(events, token)
    decreases |events|
  {
    if events != [] {
      var next := Apply(w, events[0]);
      assert events[0] != Crash;
      EventKeepsLedger(w, events[0]);
      if Matches(next, token) {
        AttemptsCount(next, events[1..], v, token);
      } else {
        OverStaysOver(next, events[1..], v, token);
      }
    }
  }

  /** In one daemon run, k failed rollbacks of a change have armed k retry timers while k is
      below 30, and 29 from then on, whatever else happens. */
  lemma RetriesExactly(w: World, events: seq<Event>, v: World, token: string)
    requires Ledger(w) && w.up && Matches(w, token) && w.pending.value.attempts == 0
    requires Run(w, events, v) && Matches(v, token) && Crash !in events
    ensures v.pending.value.attempts == Failures(events, token)
    ensures v.pending.value.retries == if Failures(events, token) < 30 then Failures(events, token) else 29
  {
    RunKeepsLedger(w, events, v);
    AttemptsCount(w, events, v, token);
  }

  // The timers alone: a change that nobody confirms, reverts or disturbs. `answer(n)` says of
  // the n-th rollback whether the mode can be applied and the record cleared.

  predicate Waiting(w: World)
  {
    w.up && w.doing.Idle? && w.pending.Some?
  }

  function Try(w: World, answer: (bool, bool)): World
    requires Waiting(w)
  {
    var applied := Apply(w, RollbackApply(w.pending.value.change.token, answer.0));
    if answer.0 then Apply(applied, RollbackClear(answer.1)) else applied
  }

  predicate TimerArmed(before: World, after: World)
  {
    before.pending.Some? && after.pending.Some? && after.pending.value.retries > before.pending.value.retries
  }

  /** A timer fires, and then the next one, as long as one is armed. */
  function Timers(w: World, answer: nat -> (bool, bool)): World
    requires Waiting(w)
    decreases if w.pending.value.attempts < MAX_ATTEMPTS then MAX_ATTEMPTS - w.pending.value.attempts else 0
  {
    var next := Try(w, answer(w.pending.value.attempts));
    if TimerArmed(w, next) then Timers(next, answer) else next
  }

  lemma {:induction false} TimersRun(w: World, answer: nat -> (bool, bool)) returns (events: seq<Event>)
    requires Waiting(w)
    ensures Run(w, events, Timers(w, answer))
    decreases if w.pending.value.attempts < MAX_ATTEMPTS then MAX_ATTEMPTS - w.pending.value.attempts else 0
  {
    var token, a := w.pending.value.change.token, answer(w.pending.value.attempts);
    var next := Try(w, a);
    var first := [RollbackApply(token, a.0)] + if a.0 then [RollbackClear(a.1)] else [];
    assert Run(w, first, next) by { assert first[1..] == if a.0 then [RollbackClear(a.1)] else []; }
    events := first;
    if TimerArmed(w, next) {
      var rest := TimersRun(next, answer);
      RunConcat(w, first, next, rest, Timers(w, answer));
      events := first + rest;
    }
  }

  /** Rollback number n is tried after n failed ones, up to the thirtieth. */
  lemma {:induction false} TimersReach(w: World, answer: nat -> (bool, bool), n: nat)
    requires Ledger(w) && Waiting(w) && w.pending.value.attempts <= n < 30
    requires forall i :: w.pending.value.attempts <= i < n ==> !answer(i).0
    ensures Timers(w, answer) == Timers(w.(pending := Some(Pending(w.pending.value.change, n, n))), answer)
    decreases n - w.pending.value.attempts
  {
    if w.pending.value.attempts < n {
      var next := Try(w, answer(w.pending.value.attempts));
      EventKeepsLedger(w, RollbackApply(w.pending.value.change.token, false));
      TimersReach(next, answer, n);
    }
  }

  /** So a change nobody confirms is taken back exactly when one of the first thirty rollbacks
      can apply the previous mode, and the first that can also clears the record; without such
      a rollback thirty have been tried. */
  lemma TimersTakeBackExactly(w: World, answer: nat -> (bool, bool), n: nat)
    requires Ledger(w) && Waiting(w) && w.pending.value.attempts == 0
    requires n <= 29 && (forall i :: 0 <= i < n ==> !answer(i).0) && (answer(n).0 || n == 29)
    ensures var v, p := Timers(w, answer), w.pending.value.change;
            && (answer(n).0 ==> v.shown == p.previous)
            && (answer(n).0 && answer(n).1 <==> v.pending.None?) && (v.pending.None? <==> v.disk.None?)
            && (!answer(n).0 ==> v == w.(pending := Some(Pending(p, 30, 29))))
  {
    TimersReach(w, answer, n);
  }

  /** Only the current change's token reaches it. */
  lemma OldTokensAreInert(w: World, token: string, ok: bool)
    requires w.pending.Some? && w.pending.value.change.token != token
    ensures !Enabled(w, RollbackApply(token, ok)) && !Enabled(w, ConfirmSave(token, ok))
  {}

  // ---------------------------------------------------------------- the handlers

  lemma {:induction false} RunAppend(w: World, events: seq<Event>, v: World, e: Event)
    requires Run(w, events, v) && Enabled(v, e)
    ensures Run(w, events + [e], Apply(v, e))
    decreases |events|
  {
    if events == [] {
      assert [e][1..] == [];
    } else {
      RunAppend(Apply(w, events[0]), events[1..], v, e);
      assert (events + [e])[1..] == events[1..] + [e];
    }
  }

  lemma {:induction false} RunConcat(u: World, first: seq<Event>, v: World, second: seq<Event>, w: World)
    requires Run(u, first, v) && Run(v, second, w)
    ensures Run(u, first + second, w)
    decreases |first|
  {
    if first == [] {
      assert first + second == second;
    } else {
      RunConcat(Apply(u, first[0]), first[1..], v, second, w);
      assert (first + second)[1..] == first[1..] + second;
    }
  }

  class DisplayServer {
    var disk: Option<Change>
    var displayChange: Option<Pending>
    var shown: Mode
    var pref: Mode
    var file: Mode
    ghost const defaults: set<Mode>
    ghost var safe: set<Mode>
    ghost var used: set<string>
    ghost var confirmed: set<string>
    ghost var settled: Option<Mode>

    constructor (shown: Mode, saved: Mode, ghost defaults: set<Mode>)
      ensures Start(State()) && this.shown == shown && this.file == saved && this.defaults == defaults
    {
      disk, displayChange, this.shown, pref, file := None, None, shown, saved, saved;
      this.defaults, safe, used, confirmed, settled := defaults, {shown, saved} + defaults, {}, {}, None;
    }

    /** Between two handlers the lock is free. */
    ghost function State(): World
      reads this
    {
      World(true, disk, displayChange, Idle, shown, pref, file, defaults, safe, used, confirmed, settled)
    }

    method DisplaySet(request: Mode, planOk: bool, token: string, persistOk: bool, applyOk: bool, clearOk: bool)
      returns (status: int, ghost events: seq<Event>)
      requires token != "" && token !in used
      modifies this
      ensures Run(old(State()), events, State())
      ensures status == 200 <==> planOk && Restorable(old(shown)) && old(displayChange).None? && persistOk && applyOk
      ensures status == 200 ==>
                var c := Change(token, request, old(shown));
                shown == request && disk == Some(c) && displayChange == Some(Pending(c, 0, 0))
      ensures status != 200 ==> shown == old(shown) && displayChange == old(displayChange)
      ensures status != 200 ==>
                disk == if planOk && Restorable(old(shown)) && old(displayChange).None? && persistOk
                        then if clearOk then None else Some(Change(token, request, old(shown)))
                        else old(disk)
      ensures pref == old(pref) && file == old(file)
    {
      events := [];
      if !planOk { return 400, events; }
      var previous := shown;
      if previous.width <= 0 || previous.height <= 0 || previous.output == "" { return 409, events; }
      if displayChange.Some? { return 409, events; }
      var change := Change(token, request, previous);
      ghost var start := State();
      ghost var w1 := Apply(start, SetPersist(token, request, persistOk));
      events := [SetPersist(token, request, persistOk)];
      assert events[1..] == [];
      used := used + {token};
      if !persistOk { return 500, events; }
      disk := Some(change);
      RunAppend(start, events, w1, SetApply(applyOk));
      ghost var w2 := Apply(w1, SetApply(applyOk));
      events := events + [SetApply(applyOk)];
      if !applyOk {
        RunAppend(start, events, w2, SetClear(clearOk));
        events := events + [SetClear(clearOk)];
        if clearOk { disk := None; }
        return 500, events;
      }
      shown, settled := request, None;
      RunAppend(start, events, w2, SetCommit);
      events := events + [SetCommit];
      displayChange := Some(Pending(change, 0, 0));
      status := 200;
    }

    /** Timer, revert call and failed confirm all end here. */
    method RollbackDisplay(token: string, applyOk: bool, clearOk: bool) returns (ok: bool, ghost events: seq<Event>)
      modifies this
      ensures Run(old(State()), events, State())
      ensures ok <==> Matches(old(State()), token) && applyOk && clearOk
      ensures !Matches(old(State()), token) ==> State() == old(State())
      ensures Matches(old(State()), token) ==>
                State() == old(State()).(
                  shown := if applyOk then old(displayChange).value.change.previous else old(shown),
                  disk := if ok then None else old(disk),
                  pending := if ok then None else if applyOk then old(displayChange) else Some(Retry(old(displayChange).value)))
      ensures Matches(old(State()), token) && !applyOk ==>
                displayChange.value.retries == old(displayChange).value.retries + if old(displayChange).value.attempts < 29 then 1 else 0
    {
      events := [];
      if displayChange.None? || displayChange.value.change.token != token { return false, events; }
      var change := displayChange.value.change;
      ghost var start := State();
      events := [RollbackApply(token, applyOk)];
      assert events[1..] == [];
      if !applyOk {
        var attempts := displayChange.value.attempts + 1;
        var retries := displayChange.value.retries;
        if attempts < MAX_ATTEMPTS { retries := retries + 1; } // a new two-second timer
        displayChange := Some(Pending(change, attempts, retries));
        return false, events;
      }
      shown := change.previous;
      ghost var w1 := Apply(start, RollbackApply(token, true));
      RunAppend(start, events, w1, RollbackClear(clearOk));
      events := events + [RollbackClear(clearOk)];
      if !clearOk { return false, events; }
      disk, displayChange := None, None;
      ok := true;
    }

    method DisplayConfirm(token: string, saveOk: bool, clearOk: bool, restoreOk: bool, applyOk: bool, clearAgainOk: bool)
      returns (status: int, ghost events: seq<Event>)
      modifies this
      ensures Run(old(State()), events, State())
      ensures status == 200 <==> token != "" && old(displayChange).Some? && old(displayChange).value.change.token == token && saveOk && clearOk
      ensures status == 200 ==>
                var selected := old(displayChange).value.change.selected;
                && displayChange.None? && disk.None? && pref == selected && file == selected && token in confirmed
                && (shown == selected <==> old(shown) == selected) && (settled.Some? <==> shown == selected)
      ensures status != 200 ==> confirmed == old(confirmed)
      ensures status == 500 ==> old(displayChange).Some?
      ensures status == 500 ==>
                var c := old(displayChange).value.change;
                && shown == (if applyOk then c.previous else old(shown))
                && pref == (if saveOk then c.previous else c.selected)
                && file == (if !saveOk then old(file) else if restoreOk then c.previous else c.selected)
      ensures status == 400 || status == 409 ==> State() == old(State())
    {
      events := [];
      if token == "" { return 400, events; }
      if displayChange.None? || displayChange.value.change.token != token { return 409, events; }
      var change := displayChange.value.change;
      ghost var start := State();
      events := [ConfirmSave(token, saveOk)];
      assert events[1..] == [];
      pref := change.selected;
      if !saveOk {
        ghost var unsaved := State();
        var _, rest := RollbackDisplay(token, applyOk, clearAgainOk);
        RunConcat(start, events, unsaved, rest, State());
        return 500, events + rest;
      }
      file := change.selected;
      ghost var w1 := Apply(start, ConfirmSave(token, true));
      RunAppend(start, events, w1, ConfirmClear(clearOk, restoreOk));
      events := events + [ConfirmClear(clearOk, restoreOk)];
      if !clearOk {
        pref := change.previous;
        if restoreOk { file := change.previous; }
        ghost var middle := State();
        var _, rest := RollbackDisplay(token, applyOk, clearAgainOk);
        RunConcat(start, events, middle, rest, State());
        return 500, events + rest;
      }
      disk, displayChange := None, None;
      safe, confirmed := safe + {change.selected}, confirmed + {token};
      settled := if shown == change.selected then Some(change.selected) else None;
      status := 200;
    }

    /** Shows what the preference in memory resolves to: itself, or a default when the
        displays that are connected cannot show it. Nothing is applied when the screen
        already has it. */
    method DisplayNormalize(fallback: Option<Mode>, applyOk: bool) returns (status: int, ghost events: seq<Event>)
      requires fallback.Some? ==> fallback.value in defaults
      modifies this
      ensures Run(old(State()), events, State())
      ensures status == 409 <==> old(displayChange).Some?
      ensures status == 200 <==> old(displayChange).None? && (applyOk || old(shown) == if fallback.Some? then fallback.value else old(pref))
      ensures status == 200 ==> shown == if fallback.Some? then fallback.value else old(pref)
      ensures status != 200 ==> State() == old(State())
      ensures disk == old(disk) && displayChange == old(displayChange) && pref == old(pref) && file == old(file)
      ensures Ledger(old(State())) && Safety(old(State())) && status == 200 ==>
                (Promise(State()) <==> fallback.Some? || old(pref) in old(safe) || old(disk).Some?)
    {
      events := [];
      if displayChange.Some? { return 409, events; }
      var plan := if fallback.Some? then fallback.value else pref;
      if plan != shown {
        events := [Normalize(fallback, applyOk)];
        assert events[1..] == [];
        if !applyOk { return 500, events; }
        shown, settled := plan, None;
      }
      status := 200;
    }

    /** Saving another setting writes the whole state, and with it the preference in memory. */
    method SaveAnotherSetting() returns (ghost events: seq<Event>)
      modifies this
      ensures Run(old(State()), events, State()) && file == pref == old(pref)
    {
      events := [SaveAnother];
      assert events[1..] == [];
      file := pref;
    }

    /** The daemon dies between two handlers and comes back: memory is lost, and the
        record on disk, if it can be read, becomes the pending change again. */
    method RestartAndRecover(readable: bool) returns (ghost events: seq<Event>)
      modifies this
      ensures Run(old(State()), events, State())
      ensures displayChange == if readable && disk.Some? && disk.value.token != "" && Restorable(disk.value.previous)
                               then Some(Pending(disk.value, 0, 0)) else None
      ensures disk == old(disk) && shown == old(shown) && file == old(file) && pref == file
    {
      ghost var start := State();
      events := [Crash, Restart(readable)];
      assert events[1..] == [Restart(readable)] && events[1..][1..] == [];
      displayChange, pref := None, file;
      if disk.None? || !readable { return; }
      if disk.value.token == "" || !Restorable(disk.value.previous) { return; }
      displayChange := Some(Pending(disk.value, 0, 0));
    }
  }
}

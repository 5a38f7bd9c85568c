/** Per-app locks: how an operation turns app ids into an ordered list of mutexes,
    and why taking them in that order can never deadlock. */
module AppLocks {
  import opened Ordering

  // ---------------------------------------------------------------- the lock table

  /** A mutex; only its identity matters here, who holds it is in `Machine` below. */
  class Mutex {
    constructor () {}
  }

  /** Each id names one mutex, and different ids name different mutexes. */
  ghost predicate Injective(table: map<string, Mutex>)
  {
    forall a, b :: a in table && b in table && table[a] == table[b] ==> a == b
  }

  /** Drops empty ids and duplicates, then sorts. */
  method Normalize(ids: seq<string>) returns (ordered: seq<string>)
    ensures StrictlySorted(ordered)
    ensures forall id :: id in ordered <==> id in ids && id != ""
  {
    var unique: set<string> := {};
    for i := 0 to |ids|
      invariant forall id :: id in unique <==> id in ids[..i] && id != ""
    {
      if ids[i] != "" { unique := unique + {ids[i]}; }
    }
    ordered := SortedKeys(unique);
    assert ids[..|ids|] == ids;
  }

  class AppOperationLocks {
    var locks: map<string, Mutex>

    constructor ()
      ensures locks == map[]
    {
      locks := map[];
    }

    /** What `lock` does before it takes any app mutex: fix the order, and create the
        mutexes that do not exist yet. */
    method Resolve(ids: seq<string>) returns (ordered: seq<string>, handles: seq<Mutex>)
      requires Injective(locks)
      modifies this
      ensures Injective(locks)
      ensures StrictlySorted(ordered)
      ensures forall id :: id in ordered <==> id in ids && id != ""
      ensures |handles| == |ordered|
      ensures forall k :: 0 <= k < |ordered| ==> ordered[k] in locks && handles[k] == locks[ordered[k]]
      ensures forall id :: id in locks <==> id in old(locks) || id in ordered
      ensures forall id :: id in old(locks) ==> locks[id] == old(locks[id])
      ensures forall id :: id in locks && id !in old(locks) ==> fresh(locks[id])
    {
      ordered := Normalize(ids);
      handles := [];
      for k := 0 to |ordered|
        invariant Injective(locks)
        invariant |handles| == k
        invariant forall j :: 0 <= j < k ==> ordered[j] in locks && handles[j] == locks[ordered[j]]
        invariant forall id :: id in locks <==> id in old(locks) || id in ordered[..k]
        invariant forall id :: id in old(locks) ==> locks[id] == old(locks[id])
        invariant forall id :: id in locks && id !in old(locks) ==> fresh(locks[id])
      {
        if ordered[k] !in locks {
          var mutex := new Mutex();
          locks := locks[ordered[k] := mutex];
        }
        handles := handles + [locks[ordered[k]]];
      }
      assert ordered[..|ordered|] == ordered;
    }
  }

  /** Two operations that resolved their ids at different times contend for the same
      mutex exactly when they asked for the same app: a lazily created mutex is never
      replaced. `early` and `late` are the lock table after each call. */
  lemma SameMutexIffSameApp(early: map<string, Mutex>, late: map<string, Mutex>, a: string, b: string)
    requires Injective(late)
    requires forall id :: id in early ==> id in late && late[id] == early[id]
    requires a in early && b in late
    ensures early[a] == late[b] <==> a == b
  {
    assert a in late && late[a] == early[a];
  }

  // ---------------------------------------------------------------- the machine

  datatype Phase = Acquiring | Critical | Releasing

  /** One operation. While acquiring it has taken the first `held` locks of `order`;
      while releasing the first `held` are still to be given back. */
  datatype Client = Client(order: seq<string>, held: nat, phase: Phase)

  /** Any number of operations, and for every locked mutex the operation that holds it. */
  datatype State = State(clients: seq<Client>, owner: map<string, nat>)

  predicate Finished(c: Client)
  {
    c.phase == Releasing && c.held == 0
  }

  predicate Wants(c: Client)
  {
    c.phase == Acquiring && c.held < |c.order|
  }

  predicate Enabled(s: State, i: nat)
    requires i < |s.clients|
  {
    !Finished(s.clients[i]) &&
    (Wants(s.clients[i]) ==> s.clients[i].order[s.clients[i].held] !in s.owner)
  }

  /** What operation i does next. */
  function Advance(s: State, i: nat): (t: State)
    requires i < |s.clients| && Enabled(s, i)
    requires s.clients[i].held <= |s.clients[i].order|
    ensures |t.clients| == |s.clients|
    ensures forall j :: 0 <= j < |s.clients| && j != i ==> t.clients[j] == s.clients[j]
    ensures t.clients[i].order == s.clients[i].order
  {
    var c := s.clients[i];
    match c.phase
    case Acquiring =>
      if c.held < |c.order|
      then State(s.clients[i := c.(held := c.held + 1)], s.owner[c.order[c.held] := i])
      else s.(clients := s.clients[i := c.(phase := Critical)])
    case Critical => s.(clients := s.clients[i := c.(phase := Releasing)])
    case Releasing =>
      State(s.clients[i := c.(held := c.held - 1)], s.owner - {c.order[c.held - 1]})
  }

  function Arrive(s: State, order: seq<string>): State
  {
    s.(clients := s.clients + [Client(order, 0, Acquiring)])
  }

  ghost predicate HasTaken(c: Client, id: string)
  {
    exists k :: 0 <= k < c.held && k < |c.order| && c.order[k] == id
  }

  ghost predicate Orderly(s: State)
  {
    forall i :: 0 <= i < |s.clients| ==>
      && StrictlySorted(s.clients[i].order)
      && s.clients[i].held <= |s.clients[i].order|
      && (s.clients[i].phase == Critical ==> s.clients[i].held == |s.clients[i].order|)
  }

  ghost predicate OwnersTook(s: State)
  {
    forall id :: id in s.owner ==> s.owner[id] < |s.clients| && HasTaken(s.clients[s.owner[id]], id)
  }

  ghost predicate TakersOwn(s: State)
  {
    forall i, k :: 0 <= i < |s.clients| && 0 <= k < s.clients[i].held && k < |s.clients[i].order| ==>
      s.clients[i].order[k] in s.owner && s.owner[s.clients[i].order[k]] == i
  }

  /** The mutexes really held are, for every operation, exactly a prefix of its order. */
  ghost predicate Inv(s: State)
  {
    Orderly(s) && OwnersTook(s) && TakersOwn(s)
  }

  ghost predicate Step(s: State, t: State)
  {
    || (exists i: nat :: i < |s.clients| && s.clients[i].held <= |s.clients[i].order| && Enabled(s, i) && t == Advance(s, i))
    || (exists order :: StrictlySorted(order) && t == Arrive(s, order))
  }

  lemma SortedDistinct(order: seq<string>, i: nat, j: nat)
    requires StrictlySorted(order) && i < |order| && j < |order| && order[i] == order[j]
    ensures i == j
  {
    LessIrreflexive(order[i]);
  }

  lemma TakenStaysTaken(s: State, i: nat, id: string)
    requires Inv(s) && i < |s.clients| && Wants(s.clients[i]) && Enabled(s, i) && id in s.owner
    ensures var t := Advance(s, i); s.owner[id] < |t.clients| && HasTaken(t.clients[s.owner[id]], id)
  {
    var j := s.owner[id];
    var k :| 0 <= k < s.clients[j].held && k < |s.clients[j].order| && s.clients[j].order[k] == id;
    assert Advance(s, i).clients[j].order[k] == id;
  }

  lemma TakeKeepsInv(s: State, i: nat)
    requires Inv(s) && i < |s.clients| && Wants(s.clients[i]) && Enabled(s, i)
    ensures Inv(Advance(s, i))
  {
    var t, c := Advance(s, i), s.clients[i];
    assert OwnersTook(t) by {
      forall id | id in t.owner ensures t.owner[id] < |t.clients| && HasTaken(t.clients[t.owner[id]], id) {
        if id == c.order[c.held] {
          assert t.clients[i].order[c.held] == id;
        } else {
          TakenStaysTaken(s, i, id);
        }
      }
    }
    assert Orderly(t);
    assert TakersOwn(t);
  }

  lemma OthersKeepTheirs(s: State, i: nat, id: string)
    requires Inv(s) && i < |s.clients| && s.clients[i].phase == Releasing && s.clients[i].held > 0
    requires id in s.owner && id != s.clients[i].order[s.clients[i].held - 1]
    ensures var t := Advance(s, i); s.owner[id] < |t.clients| && HasTaken(t.clients[s.owner[id]], id)
  {
    var j := s.owner[id];
    var k :| 0 <= k < s.clients[j].held && k < |s.clients[j].order| && s.clients[j].order[k] == id;
    assert k < Advance(s, i).clients[j].held && Advance(s, i).clients[j].order[k] == id;
  }

  /** What is given back is the holder's alone, and it holds it once. */
  lemma GivesBackOnce(s: State, i: nat, j: nat, k: nat)
    requires Inv(s) && i < |s.clients| && s.clients[i].phase == Releasing && s.clients[i].held > 0
    requires j < |s.clients| && k < Advance(s, i).clients[j].held
    ensures var t := Advance(s, i); t.clients[j].order[k] in t.owner && t.owner[t.clients[j].order[k]] == j
  {
    var c := s.clients[i];
    assert s.clients[j].order[k] in s.owner && s.owner[s.clients[j].order[k]] == j;
    assert s.owner[c.order[c.held - 1]] == i;
    if s.clients[j].order[k] == c.order[c.held - 1] { SortedDistinct(c.order, k, c.held - 1); }
  }

  lemma GiveBackKeepsInv(s: State, i: nat)
    requires Inv(s) && i < |s.clients| && s.clients[i].phase == Releasing && s.clients[i].held > 0
    ensures Inv(Advance(s, i))
  {
    var t := Advance(s, i);
    assert OwnersTook(t) by {
      forall id | id in t.owner ensures t.owner[id] < |t.clients| && HasTaken(t.clients[t.owner[id]], id) {
        OthersKeepTheirs(s, i, id);
      }
    }
    assert TakersOwn(t) by {
      forall j, k | 0 <= j < |t.clients| && 0 <= k < t.clients[j].held && k < |t.clients[j].order|
        ensures t.clients[j].order[k] in t.owner && t.owner[t.clients[j].order[k]] == j
      {
        GivesBackOnce(s, i, j, k);
      }
    }
    assert Orderly(t);
  }

  lemma AdvanceKeepsInv(s: State, i: nat)
    requires Inv(s) && i < |s.clients| && Enabled(s, i)
    ensures Inv(Advance(s, i))
  {
    if Wants(s.clients[i]) {
      TakeKeepsInv(s, i);
    } else if s.clients[i].phase == Releasing {
      GiveBackKeepsInv(s, i);
    } else {
      var t := Advance(s, i);
      forall id | id in t.owner ensures HasTaken(t.clients[t.owner[id]], id) {
        assert HasTaken(s.clients[s.owner[id]], id);
      }
    }
  }

  lemma StepKeepsInv(s: State, t: State)
    requires Inv(s) && Step(s, t)
    ensures Inv(t)
  {
    if i: nat :| i < |s.clients| && s.clients[i].held <= |s.clients[i].order| && Enabled(s, i) && t == Advance(s, i) {
      AdvanceKeepsInv(s, i);
    }
  }

  /** Operations inside their critical sections have disjoint app sets. */
  lemma CriticalSectionsDisjoint(s: State, i: nat, j: nat)
    requires Inv(s) && i < |s.clients| && j < |s.clients| && i != j
    requires s.clients[i].phase == Critical && s.clients[j].phase == Critical
    ensures forall id :: !(id in s.clients[i].order && id in s.clients[j].order)
  {
    forall k, l | 0 <= k < |s.clients[i].order| && 0 <= l < |s.clients[j].order|
      ensures s.clients[i].order[k] != s.clients[j].order[l]
    {
      assert s.owner[s.clients[i].order[k]] == i && s.owner[s.clients[j].order[l]] == j;
    }
  }

  // ---------------------------------------------------------------- no deadlock

  ghost function Wanted(c: Client): string
    requires Wants(c)
  {
    c.order[c.held]
  }

  /** Operations waiting for a mutex that sorts after the one operation i waits for. */
  ghost function WaitingAbove(s: State, i: nat): set<nat>
    requires i < |s.clients| && Wants(s.clients[i])
  {
    set j: nat | j < |s.clients| && Wants(s.clients[j]) && Less(Wanted(s.clients[i]), Wanted(s.clients[j]))
  }

  /** Follow the holder of the wanted mutex: what it wants in turn sorts strictly later,
      so the chain ends at an operation that can move. */
  lemma {:induction false} BlockerChainEnds(s: State, i: nat) returns (j: nat)
    requires Inv(s) && i < |s.clients| && !Finished(s.clients[i])
    ensures j < |s.clients| && Enabled(s, j)
    decreases if Wants(s.clients[i]) then WaitingAbove(s, i) else {}
  {
    if Enabled(s, i) { return i; }
    var id := Wanted(s.clients[i]);
    j := s.owner[id];
    var k :| 0 <= k < s.clients[j].held && s.clients[j].order[k] == id;
    if !Enabled(s, j) {
      var next := Wanted(s.clients[j]);
      assert Less(id, next);
      assert j in WaitingAbove(s, i);
      LessIrreflexive(next);
      assert j !in WaitingAbove(s, j);
      forall l | l in WaitingAbove(s, j) ensures l in WaitingAbove(s, i) {
        LessTransitive(id, next, Wanted(s.clients[l]));
      }
      j := BlockerChainEnds(s, j);
    }
  }

  /** Deadlock freedom: an unfinished operation means that some operation can move. */
  lemma NeverStuck(s: State)
    requires Inv(s)
    requires exists i: nat :: i < |s.clients| && !Finished(s.clients[i])
    ensures exists j: nat :: j < |s.clients| && Enabled(s, j)
  {
    var i: nat :| i < |s.clients| && !Finished(s.clients[i]);
    var j := BlockerChainEnds(s, i);
  }

  // ---------------------------------------------------------------- every batch finishes

  function StepsLeft(c: Client): int
  {
    match c.phase
    case Acquiring => 2 * |c.order| - c.held + 2
    case Critical => |c.order| + 1
    case Releasing => c.held
  }

  function TotalSteps(clients: seq<Client>): int
  {
    if clients == [] then 0 else StepsLeft(clients[0]) + TotalSteps(clients[1..])
  }

  lemma {:induction false} TotalAfterUpdate(clients: seq<Client>, i: nat, c: Client)
    requires i < |clients|
    ensures TotalSteps(clients[i := c]) == TotalSteps(clients) - StepsLeft(clients[i]) + StepsLeft(c)
  {
    if i == 0 {
      assert clients[i := c][1..] == clients[1..];
    } else {
      assert clients[i := c][1..] == clients[1..][i - 1 := c];
      TotalAfterUpdate(clients[1..], i - 1, c);
    }
  }

  lemma {:induction false} TotalNonNegative(clients: seq<Client>)
    requires forall i :: 0 <= i < |clients| ==> clients[i].held <= |clients[i].order|
    ensures TotalSteps(clients) >= 0
    ensures TotalSteps(clients) == 0 <==> forall i :: 0 <= i < |clients| ==> Finished(clients[i])
  {
    if clients != [] {
      TotalNonNegative(clients[1..]);
      assert forall i :: 0 < i < |clients| ==> clients[i] == clients[1..][i - 1];
    }
  }

  /** A run of a batch: no operation arrives, each index in `schedule` moves once. */
  ghost predicate BatchRun(s: State, schedule: seq<nat>, t: State)
    decreases |schedule|
  {
    if schedule == [] then s == t
    else
      && schedule[0] < |s.clients| && s.clients[schedule[0]].held <= |s.clients[schedule[0]].order|
      && Enabled(s, schedule[0])
      && BatchRun(Advance(s, schedule[0]), schedule[1..], t)
  }

  /** Every schedule uses up exactly one of the batch's remaining steps per move. So no
      schedule is longer than TotalSteps, and a run that cannot go on has finished
      every operation. */
  lemma {:induction false} BatchFinishes(s: State, schedule: seq<nat>, t: State)
    requires Inv(s) && BatchRun(s, schedule, t)
    ensures Inv(t) && |schedule| + TotalSteps(t.clients) == TotalSteps(s.clients)
    ensures |schedule| <= TotalSteps(s.clients)
    ensures (forall j: nat :: j < |t.clients| ==> !Enabled(t, j)) ==>
              forall i :: 0 <= i < |t.clients| ==> Finished(t.clients[i])
    decreases |schedule|
  {
    if schedule == [] {
      TotalNonNegative(t.clients);
      if i: nat :| i < |t.clients| && !Finished(t.clients[i]) { NeverStuck(t); }
    } else {
      var i := schedule[0];
      AdvanceKeepsInv(s, i);
      TotalAfterUpdate(s.clients, i, Advance(s, i).clients[i]);
      BatchFinishes(Advance(s, i), schedule[1..], t);
    }
  }
}

/** Replacing a model repository by a verified staged one, here and on a worker. Every
    effect goes on a trail, so that what a crash can leave behind is a state on it. */
module Promotion {

  /** What stands at one of the three places: nothing, a tree being built or torn down, or
      a complete tree. */
  datatype Slot = Absent | Broken | Complete(tree: string)

  datatype World = World(final: Slot, staging: Slot, backup: Slot)

  /** How a recursive removal ends; one that fails has done nothing, part, or all of it. */
  datatype Removal = Removed | FailedUntouched | FailedHalfway | FailedEmptied

  function Remains(slot: Slot, r: Removal): Slot
  {
    match r
    case FailedUntouched => slot
    case FailedHalfway => if slot.Absent? then Absent else Broken
    case _ => Absent
  }

  /** How the effects of one exchange end. */
  datatype Answers = Answers(parents: bool, clear: Removal, looked: bool, aside: bool, activate: bool,
                             clearFinal: Removal, restore: bool, tidy: Removal)

  predicate Safe(w: World)
  {
    w.final.Complete? || w.staging.Complete? || w.backup.Complete?
  }

  function Trees(w: World): set<string>
  {
    set s | s in {w.final, w.staging, w.backup} && s.Complete? :: s.tree
  }

  /** The exchange, as what it may do to the three places. The backup is only taken apart
      while a complete tree stands elsewhere; the rest moves a tree to an empty place. */
  predicate Step(w: World, next: World)
  {
    || next == w
    || ((w.staging.Complete? || w.final.Complete?) && !next.backup.Complete? && next == w.(backup := next.backup))
    || (w.backup.Absent? && next == World(Absent, w.staging, w.final))
    || (w.staging.Complete? && w.final.Absent? && next == World(w.staging, Absent, w.backup))
    || (w.final.Absent? && next == World(w.backup, w.staging, Absent))
  }

  /** Rebuilding the staging tree from `source`. One that equals it already is not touched. */
  predicate Staged(w: World, next: World, source: string)
  {
    || next == w
    || (w.staging != Complete(source) && next == w.(staging := next.staging))
  }

  /** Rebuilding is safe at this moment whatever it does to the staging tree. */
  predicate Restorable(w: World, source: string)
  {
    w.final.Complete? || w.backup.Complete? || w.staging == Complete(source)
  }

  predicate Chained(trail: seq<World>)
  {
    |trail| > 0 && forall k :: 0 <= k < |trail| - 1 ==> Step(trail[k], trail[k + 1])
  }

  /** From `was` to `now` the trail grew by steps of the exchange. */
  ghost predicate Exchanged(was: seq<World>, now: seq<World>)
  {
    && 0 < |was| <= |now| && (forall k :: 0 <= k < |was| ==> now[k] == was[k])
    && (forall k :: |was| - 1 <= k < |now| - 1 ==> Step(now[k], now[k + 1]))
  }

  ghost predicate Rebuilt(was: seq<World>, now: seq<World>, source: string)
  {
    && 0 < |was| <= |now| && (forall k :: 0 <= k < |was| ==> now[k] == was[k])
    && (forall k :: |was| - 1 <= k < |now| - 1 ==> Staged(now[k], now[k + 1], source))
  }

  lemma ExchangedOn(was: seq<World>, middle: seq<World>, now: seq<World>)
    requires Exchanged(was, middle) && Exchanged(middle, now)
    ensures Exchanged(was, now)
  {
    forall k | |was| - 1 <= k < |now| - 1 ensures Step(now[k], now[k + 1]) {
      if k < |middle| - 1 { assert Step(middle[k], middle[k + 1]); }
    }
  }

  /** No state of an exchange is without a complete tree, and none has a tree that was not
      there at the start. */
  lemma {:induction false} ExchangesStaySafe(trail: seq<World>, k: nat)
    requires Chained(trail) && Safe(trail[0]) && k < |trail|
    ensures Safe(trail[k]) && Trees(trail[k]) <= Trees(trail[0])
  {
    if k > 0 {
      ExchangesStaySafe(trail, k - 1);
      assert Step(trail[k - 1], trail[k]);
    }
  }

  /** A history of any number of runs: exchanges that stop anywhere, and rebuilding before
      the next one. */
  ghost predicate History(trail: seq<World>, source: string)
  {
    |trail| > 0 && forall k :: 0 <= k < |trail| - 1 ==> Step(trail[k], trail[k + 1]) || Staged(trail[k], trail[k + 1], source)
  }

  /** Nothing is ever lost as long as no rebuilding starts from a state that is not
      restorable. */
  lemma {:induction false} HistoriesStaySafe(trail: seq<World>, source: string, k: nat)
    requires History(trail, source) && Safe(trail[0]) && k < |trail|
    requires forall j :: 0 <= j < |trail| - 1 && !Step(trail[j], trail[j + 1]) ==> Restorable(trail[j], source)
    ensures Safe(trail[k])
  {
    if k > 0 {
      HistoriesStaySafe(trail, source, k - 1);
      assert Step(trail[k - 1], trail[k]) || Staged(trail[k - 1], trail[k], source);
    }
  }

  /** That condition is exact: from any other state rebuilding can lose everything. */
  lemma RebuildingSafeExact(w: World, source: string)
    ensures Restorable(w, source) <==> forall next :: Staged(w, next, source) ==> Safe(next)
  {
    if !Restorable(w, source) {
      var next := w.(staging := Broken);
      assert Staged(w, next, source) && !Safe(next);
    }
  }

  predicate SameSource(w: World, source: string)
  {
    w.staging.Complete? ==> w.staging.tree == source
  }

  /** Every run rebuilds from the same source, and exchanges only what equals it. */
  ghost predicate OneSource(trail: seq<World>, source: string)
  {
    |trail| > 0 && forall k :: 0 <= k < |trail| - 1 ==>
      (SameSource(trail[k], source) && Step(trail[k], trail[k + 1])) || Staged(trail[k], trail[k + 1], source)
  }

  /** Then the condition always holds, however often runs crash: the only staging tree that
      an exchange leaves with nothing beside it is one that rebuilding does not touch. */
  lemma {:induction false} OneSourceStaysSafe(trail: seq<World>, source: string, k: nat)
    requires OneSource(trail, source) && Restorable(trail[0], source) && k < |trail|
    ensures Restorable(trail[k], source) && Safe(trail[k])
  {
    if k > 0 {
      OneSourceStaysSafe(trail, source, k - 1);
      assert (SameSource(trail[k - 1], source) && Step(trail[k - 1], trail[k])) || Staged(trail[k - 1], trail[k], source);
    }
  }

  /** An exchange brings no tree to the staging place. */
  lemma {:induction false} ExchangeKeepsSource(was: seq<World>, now: seq<World>, source: string, k: nat)
    requires Exchanged(was, now) && SameSource(was[|was| - 1], source) && |was| - 1 <= k < |now|
    ensures SameSource(now[k], source)
    decreases k
  {
    if k > |was| - 1 {
      ExchangeKeepsSource(was, now, source, k - 1);
      assert Step(now[k - 1], now[k]);
    }
  }

  /** One more run from the same source: rebuild, and exchange what equals it. */
  lemma RunKeepsOneSource(was: seq<World>, middle: seq<World>, now: seq<World>, source: string)
    requires OneSource(was, source) && Rebuilt(was, middle, source) && Exchanged(middle, now)
    requires now == middle || middle[|middle| - 1].staging == Complete(source)
    ensures OneSource(now, source)
  {
    forall k | 0 <= k < |now| - 1
      ensures (SameSource(now[k], source) && Step(now[k], now[k + 1])) || Staged(now[k], now[k + 1], source)
    {
      if k < |was| - 1 {
        assert now[k] == was[k] && now[k + 1] == was[k + 1];
      } else if k < |middle| - 1 {
        assert Staged(middle[k], middle[k + 1], source);
        assert now[k] == middle[k] && now[k + 1] == middle[k + 1];
      } else {
        ExchangeKeepsSource(middle, now, source, k);
      }
    }
  }

  /** Two crashes and a changed source do lose everything: one between the two renames, one
      while the backup was removed, then a rebuild from other content. */
  lemma ChangedSourceExample(former: string, staged: string, source: string)
    requires staged != source
    ensures var trail := [World(Complete(former), Complete(staged), Absent), World(Absent, Complete(staged), Complete(former)),
                          World(Absent, Complete(staged), Broken), World(Absent, Broken, Broken)];
            History(trail, source) && Safe(trail[0]) && !Safe(trail[3])
  {
  }

  class Repository {
    var final: Slot
    var staging: Slot
    var backup: Slot
    /** The manifest recorded for the repository that serves. */
    var recorded: string
    /** Every state so far. */
    ghost var trail: seq<World>

    function Now(): World
      reads this
    {
      World(final, staging, backup)
    }

    ghost predicate Valid()
      reads this
    {
      |trail| > 0 && trail[|trail| - 1] == Now()
    }

    constructor (w: World)
      ensures Now() == w && trail == [w] && Valid()
    {
      final, staging, backup := w.final, w.staging, w.backup;
      recorded := "";
      trail := [w];
    }

    /** Takes the backup apart; a crash may come halfway. */
    method RemoveBackup(r: Removal) returns (ok: bool)
      requires Valid() && (staging.Complete? || final.Complete?)
      modifies this`backup, this`trail
      ensures ok == r.Removed? && backup == Remains(old(backup), r)
      ensures Valid() && Exchanged(old(trail), trail)
    {
      if !r.FailedUntouched? {
        if backup != Absent { trail := trail + [Now().(backup := Broken)]; }
        backup := Remains(backup, r);
        trail := trail + [Now()];
      }
      ok := r.Removed?;
    }

    method MoveAside() requires Valid() && backup.Absent?
      modifies this`final, this`backup, this`trail
      ensures final == Absent && backup == old(final) && Valid() && Exchanged(old(trail), trail)
    {
      final, backup := Absent, final;
      trail := trail + [Now()];
    }

    method Activate() requires Valid() && final.Absent? && staging.Complete?
      modifies this`final, this`staging, this`trail
      ensures staging == Absent && final == old(staging) && Valid() && Exchanged(old(trail), trail)
    {
      final, staging := staging, Absent;
      trail := trail + [Now()];
    }

    method Restore() requires Valid() && final.Absent?
      modifies this`final, this`backup, this`trail
      ensures backup == Absent && final == old(backup) && Valid() && Exchanged(old(trail), trail)
    {
      final, backup := backup, Absent;
      trail := trail + [Now()];
    }

    /** The exchange on this machine. */
    method Promote(a: Answers) returns (ok: bool)
      requires Valid() && !staging.Broken?
      modifies this`final, this`staging, this`backup, this`trail
      ensures Valid() && Exchanged(old(trail), trail)
      ensures old(staging).Absent? || !a.parents ==> !ok && Now() == old(Now())
      ensures ok ==> final == old(staging) && staging == Absent
      ensures ok <==> old(staging).Complete? && a.parents && a.clear.Removed? && a.looked
                      && (old(final).Absent? || a.aside) && a.activate
      ensures !ok ==> staging == old(staging)
      ensures !ok && (a.restore || old(final).Absent?) ==> final == old(final)
    {
      if staging.Absent? || !a.parents { return false; }
      var cleared := RemoveBackup(a.clear);
      ghost var start, t1 := old(trail), trail;
      if !cleared { return false; }
      if !a.looked { return false; }
      var hadFinal := false;
      if final != Absent {
        if !a.aside { return false; }
        MoveAside();
        ExchangedOn(start, t1, trail);
        hadFinal := true;
      }
      ghost var t2 := trail;
      if !a.activate {
        if hadFinal && a.restore {
          Restore();
          ExchangedOn(start, t2, trail);
        }
        return false;
      }
      Activate();
      ExchangedOn(start, t2, trail);
      ghost var t3 := trail;
      var _ := RemoveBackup(a.tidy);
      ExchangedOn(start, t3, trail);
      ok := true;
    }

    /** The exchange by the script that runs on a worker. A failed cleanup there is a failed
        exchange, and the old tree comes back only after the final place was cleared. */
    method PromoteByScript(a: Answers) returns (ok: bool)
      requires Valid() && !staging.Broken?
      modifies this`final, this`staging, this`backup, this`trail
      ensures Valid() && Exchanged(old(trail), trail)
      ensures old(staging).Absent? ==> !ok && Now() == old(Now())
      ensures ok ==> final == old(staging) && staging == Absent && backup == Absent
      ensures ok <==> old(staging).Complete? && a.clear.Removed? && a.parents
                      && (old(final).Absent? || a.aside) && a.activate && a.tidy.Removed?
      ensures !ok && !(old(staging).Complete? && final == old(staging)) ==> staging == old(staging)
      ensures !ok && !a.activate && (old(final).Absent? || (a.clearFinal.Removed? && a.restore)) ==> final == old(final)
      ensures !ok && a.activate && old(staging).Complete? && a.clear.Removed? && a.parents && (old(final).Absent? || a.aside) ==>
                final == old(staging)
    {
      if staging.Absent? { return false; }
      var cleared := RemoveBackup(a.clear);
      ghost var start, t1 := old(trail), trail;
      if !cleared || !a.parents { return false; }
      var hadFinal := false;
      if final != Absent {
        if !a.aside { return false; }
        MoveAside();
        ExchangedOn(start, t1, trail);
        hadFinal := true;
      }
      ghost var t2 := trail;
      if a.activate {
        Activate();
        ExchangedOn(start, t2, trail);
        ghost var t3 := trail;
        var tidied := RemoveBackup(a.tidy);
        ExchangedOn(start, t3, trail);
        return tidied;
      }
      if a.clearFinal.Removed? && hadFinal && a.restore {
        Restore();
        ExchangedOn(start, t2, trail);
      }
      ok := false;
    }

    /** Rebuilds the staging tree from `source`, which it then equals if both copies worked. */
    method Rebuild(source: string, works: bool, left: Slot) returns (ok: bool)
      requires Valid()
      modifies this`staging, this`trail
      ensures Valid() && Rebuilt(old(trail), trail, source)
      ensures ok == works && (ok ==> staging.Complete?)
      ensures old(staging) == Complete(source) ==> staging == old(staging)
      ensures old(staging) != Complete(source) ==> staging == if works && !left.Complete? then Complete(source) else left
    {
      if staging != Complete(source) {
        trail := trail + [Now().(staging := Broken)];
        staging := if works && !left.Complete? then Complete(source) else left;
        trail := trail + [Now()];
      }
      ok := works;
    }

    /** Promoting a download: rebuild, compare with the download's manifest, exchange, record.
        A manifest is recorded only for the tree it describes. */
    method PromoteStaged(source: string, works: bool, left: Slot, a: Answers, saved: bool) returns (ok: bool)
      requires Valid()
      modifies this
      ensures Valid() && exists middle :: Rebuilt(old(trail), middle, source) && Exchanged(middle, trail)
      ensures OneSource(old(trail), source) ==> OneSource(trail, source)
      ensures ok <==> works && (old(staging) == Complete(source) || !left.Complete? || left == Complete(source))
                      && a.parents && a.clear.Removed? && a.looked && (old(final).Absent? || a.aside) && a.activate && saved
      ensures ok ==> final == Complete(source) && recorded == source
      ensures recorded != old(recorded) ==> ok
      ensures !ok && (a.restore || old(final).Absent?) ==> final == old(final) || final == Complete(source)
    {
      var rebuilt := Rebuild(source, works, left);
      assert Rebuilt(old(trail), trail, source) && Exchanged(trail, trail);
      ghost var middle := trail;
      if OneSource(old(trail), source) { RunKeepsOneSource(old(trail), middle, middle, source); }
      if !rebuilt || staging != Complete(source) { return false; }
      assert Rebuilt(old(trail), trail, source);
      var promoted := Promote(a);
      if OneSource(old(trail), source) { RunKeepsOneSource(old(trail), middle, trail, source); }
      if !promoted || !saved { return false; }
      recorded := source;
      ok := true;
    }
  }
}

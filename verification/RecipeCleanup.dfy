/** Ending a recipe operation: proof of cleanup, the phase it ends in, and retrying a
    cleanup that could not be proved. */
module RecipeCleanup {
  import opened Sorting
  import Strings

  datatype Kind = Check | Run | Stop

  datatype Phase = Checking | Preparing | Prepared | Switching | Starting | Verifying | Active | Stopping | Stopped | Failed | Aborted | Recovering

  predicate Terminal(p: Phase)
  {
    p in {Stopped, Failed, Aborted}
  }

  /** The lifecycle's table; staying in a phase is always allowed. */
  predicate ValidTransition(from: Phase, to: Phase)
  {
    from == to ||
    match from
    case Checking => to in {Prepared, Failed, Aborted, Recovering}
    case Preparing => to in {Prepared, Stopping, Failed, Aborted, Recovering}
    case Prepared => to in {Switching, Stopping, Failed, Aborted, Recovering}
    case Switching => to in {Starting, Stopping, Failed, Aborted, Recovering}
    case Starting => to in {Verifying, Stopping, Failed, Aborted, Recovering}
    case Verifying => to in {Active, Stopping, Failed, Aborted, Recovering}
    case Active => to in {Stopping, Recovering}
    case Stopping => to in {Stopped, Failed, Aborted, Recovering}
    case Recovering => true
    case Stopped | Failed | Aborted => to == Recovering
  }

  /** What a launch passes through, one phase after the other. */
  const LAUNCH := [Preparing, Prepared, Switching, Starting, Verifying, Active]

  /** A launch that has not begun to stop moves on to the next phase and to no later one; it can
      be stopped, recovered and, until it is active, fail or be aborted in each. */
  lemma LaunchMovesExactly(i: nat, to: Phase)
    requires i < |LAUNCH|
    ensures to in LAUNCH ==> (ValidTransition(LAUNCH[i], to) <==> to == LAUNCH[i] || (i < 5 && to == LAUNCH[i + 1]))
    ensures to !in LAUNCH ==> (ValidTransition(LAUNCH[i], to) <==> to in {Stopping, Recovering} || (i < 5 && to in {Failed, Aborted}))
  {
    assert LAUNCH[i] in {Preparing, Prepared, Switching, Starting, Verifying, Active};
  }

  datatype Resource = Resource(kind: string, id: string, node: string, locator: string)

  predicate RequiresCleanup(r: Resource)
  {
    r.kind in {"container", "container-set", "compose-project", "private-port", "stable-port", "rendezvous-port", "process-set", "staging-checkout"}
  }

  datatype Operation = Operation(kind: Kind, recipe: string, phase: Phase, resources: seq<Resource>, error: string)

  predicate Clean(o: Operation)
  {
    forall i :: 0 <= i < |o.resources| ==> !RequiresCleanup(o.resources[i])
  }

  function CleanupResources(o: Operation): seq<Resource>
  {
    FilterBy((r: Resource) => RequiresCleanup(r), o.resources)
  }

  // What an error says.

  /** An error joined from parts is printed a part to a line. `Wrapping` is an error that
      carries a cancellation inside, `Reporting` one that came with the cause and speaks of
      what remains. */
  datatype Part = Canceled | Wrapping(text: string) | Remaining(count: nat) | RemainingOn(count: nat, nodes: string)
                | Reporting(text: string) | Other(text: string)

  const OBLIGATIONS := "cleanup obligation(s) remain"

  function Text(p: Part): string
  {
    match p
    case Canceled => "context canceled"
    case Remaining(n) => Strings.Decimal(n) + " runtime " + OBLIGATIONS
    case RemainingOn(n, nodes) => Strings.Decimal(n) + " " + OBLIGATIONS + " on " + nodes
    case Wrapping(text) => text
    case Reporting(text) => text
    case Other(text) => text
  }

  /** The error is, or carries, a cancellation. */
  predicate HasCancel(parts: seq<Part>)
  {
    exists i :: 0 <= i < |parts| && (parts[i].Canceled? || parts[i].Wrapping?)
  }

  function Message(parts: seq<Part>): string
  {
    if parts == [] then "" else if |parts| == 1 then Text(parts[0]) else Text(parts[0]) + "\n" + Message(parts[1..])
  }

  function ToLower(s: string): (r: string)
    ensures |r| == |s|
  {
    seq(|s|, i requires 0 <= i < |s| => if 'A' <= s[i] <= 'Z' then s[i] - 'A' + 'a' else s[i])
  }

  predicate Contains(s: string, part: string)
  {
    exists k :: 0 <= k <= |s| && part <= s[k..]
  }

  function TrimPrefix(s: string, prefix: string): string
  {
    if prefix <= s then s[|prefix|..] else s
  }

  /** The recorded error says no more than that resources were still seen. */
  predicate OnlyInventoryProof(message: string)
  {
    var m := TrimPrefix(ToLower(Strings.TrimSpace(message)), "context canceled\n");
    Strings.TrimSpace(message) != "" && Contains(m, OBLIGATIONS) && '\n' !in m
  }

  /** A single line that does not look like one of the others. */
  predicate PlainLine(s: string)
  {
    && s != "" && '\n' !in s && Strings.TrimSpace(s) == s
    && ToLower(s) != "context canceled" && !Contains(ToLower(s), OBLIGATIONS)
  }

  predicate Plain(p: Part)
  {
    match p
    case Other(text) => PlainLine(text)
    case Wrapping(text) => PlainLine(text)
    case Reporting(text) => Edged(text) && '\n' !in text && Contains(ToLower(text), OBLIGATIONS)
    case RemainingOn(_, nodes) => nodes != "" && '\n' !in nodes && Strings.TrimSpace("x" + nodes) == "x" + nodes
    case _ => true
  }

  predicate IsProof(p: Part)
  {
    p.Remaining? || p.RemainingOn? || p.Reporting?
  }

  predicate Edged(s: string)
  {
    s != "" && !Strings.IsSpace(s[0]) && !Strings.IsSpace(s[|s| - 1])
  }

  lemma EdgedIsTrimmed(s: string)
    requires s != ""
    ensures Strings.TrimSpace(s) == s <==> Edged(s)
  {
  }

  lemma ToLowerAppends(a: string, b: string)
    ensures ToLower(a + b) == ToLower(a) + ToLower(b)
  {
  }

  lemma ToLowerKeepsLines(s: string)
    ensures '\n' in ToLower(s) <==> '\n' in s
  {
    if '\n' in s {
      var i :| 0 <= i < |s| && s[i] == '\n';
      assert ToLower(s)[i] == '\n';
    }
  }

  lemma {:induction false} NumberIsLine(n: nat)
    ensures Strings.Decimal(n) != "" && forall i :: 0 <= i < |Strings.Decimal(n)| ==> '0' <= Strings.Decimal(n)[i] <= '9'
  {
    if n >= 10 { NumberIsLine(n / 10); }
  }

  lemma ContainsMiddle(before: string, part: string, after: string)
    ensures Contains(before + part + after, part)
  {
    var s := before + part + after;
    assert s[|before|..] == part + after;
  }

  lemma ObligationsAreLower()
    ensures ToLower(OBLIGATIONS) == OBLIGATIONS
  {
    assert forall i :: 0 <= i < |OBLIGATIONS| ==> !('A' <= OBLIGATIONS[i] <= 'Z');
  }

  predicate ReadsAs(p: Part)
  {
    && Edged(Text(p)) && '\n' !in Text(p)
    && (ToLower(Text(p)) == "context canceled" <==> p.Canceled?)
    && (Contains(ToLower(Text(p)), OBLIGATIONS) <==> IsProof(p))
  }

  /** A line around the phrase, counted by a number in front. */
  lemma ObligationsEnd()
    ensures OBLIGATIONS != "" && !Strings.IsSpace(OBLIGATIONS[|OBLIGATIONS| - 1]) && '\n' !in OBLIGATIONS
  {
    assert OBLIGATIONS[|OBLIGATIONS| - 1] == 'n';
  }

  lemma CountedLine(n: nat, middle: string, after: string)
    requires '\n' !in middle && '\n' !in after && (after == "" || !Strings.IsSpace(after[|after| - 1]))
    ensures var s := Strings.Decimal(n) + middle + OBLIGATIONS + after;
            Edged(s) && '\n' !in s && ToLower(s)[0] != 'c' && Contains(ToLower(s), OBLIGATIONS)
  {
    var number := Strings.Decimal(n);
    NumberIsLine(n);
    ProofLine(number + middle, after);
    ObligationsEnd();
    AroundPhrase(number, middle, OBLIGATIONS, after);
  }

  lemma AroundPhrase(number: string, middle: string, phrase: string, after: string)
    requires number != "" && '0' <= number[0] <= '9' && '\n' !in number
    requires phrase != "" && !Strings.IsSpace(phrase[|phrase| - 1]) && '\n' !in phrase
    requires '\n' !in middle && '\n' !in after && (after == "" || !Strings.IsSpace(after[|after| - 1]))
    ensures var s := number + middle + phrase + after;
            Edged(s) && '\n' !in s && ToLower(s)[0] != 'c'
  {
    var s := number + middle + phrase + after;
    assert s[0] == number[0];
    assert s[|s| - 1] == if after == "" then phrase[|phrase| - 1] else after[|after| - 1];
  }

  lemma CanceledIsLine()
    ensures ReadsAs(Canceled)
  {
    assert ToLower("context canceled") == "context canceled";
    assert |OBLIGATIONS| > |"context canceled"|;
  }

  lemma PlainLineReads(p: Part, text: string)
    requires PlainLine(text) && p in {Other(text), Wrapping(text)}
    ensures ReadsAs(p)
  {
    EdgedIsTrimmed(text);
  }

  lemma RemainingReads(n: nat)
    ensures ReadsAs(Remaining(n))
  {
    CountedLine(n, " runtime ", "");
    assert Text(Remaining(n)) == Strings.Decimal(n) + " runtime " + OBLIGATIONS + "";
  }

  lemma RemainingOnReads(n: nat, nodes: string)
    requires Plain(RemainingOn(n, nodes))
    ensures ReadsAs(RemainingOn(n, nodes))
  {
    EdgedIsTrimmed("x" + nodes);
    CountedLine(n, " ", " on " + nodes);
    assert Text(RemainingOn(n, nodes)) == Strings.Decimal(n) + " " + OBLIGATIONS + (" on " + nodes);
  }

  lemma ReportingReads(text: string)
    requires Plain(Reporting(text))
    ensures ReadsAs(Reporting(text))
  {
    CanceledIsLine();
  }

  /** A stop of a recipe of managed containers fails with this. */
  lemma OwnedIsReported(n: nat)
    ensures Plain(Reporting(Strings.Decimal(n) + " recipe-owned runtime " + OBLIGATIONS))
  {
    CountedLine(n, " recipe-owned runtime ", "");
    var text := Strings.Decimal(n) + " recipe-owned runtime " + OBLIGATIONS;
    assert text == text + "";
  }

  /** Each part is one line, without spaces at its ends. */
  lemma PartIsLine(p: Part)
    requires Plain(p)
    ensures ReadsAs(p)
  {
    match p
    case Canceled => CanceledIsLine();
    case Remaining(n) => RemainingReads(n);
    case RemainingOn(n, nodes) => RemainingOnReads(n, nodes);
    case Other(text) => PlainLineReads(p, text);
    case Wrapping(text) => PlainLineReads(p, text);
    case Reporting(text) => ReportingReads(text);
  }

  lemma ProofLine(before: string, after: string)
    ensures Contains(ToLower(before + OBLIGATIONS + after), OBLIGATIONS)
  {
    ObligationsAreLower();
    ToLowerAppends(before + OBLIGATIONS, after);
    ToLowerAppends(before, OBLIGATIONS);
    ContainsMiddle(ToLower(before), OBLIGATIONS, ToLower(after));
  }

  lemma {:induction false} MessageIsLines(parts: seq<Part>)
    requires parts != [] && forall i :: 0 <= i < |parts| ==> Plain(parts[i])
    ensures Edged(Message(parts)) && ('\n' in Message(parts) <==> |parts| > 1)
  {
    PartIsLine(parts[0]);
    if |parts| > 1 {
      MessageIsLines(parts[1..]);
      assert Message(parts)[|Text(parts[0])|] == '\n';
    }
  }

  lemma PrefixHolds(a: string, b: string, c: char)
    ensures a <= b && c in a ==> c in b
  {
    if a <= b && c in a {
      var i :| 0 <= i < |a| && a[i] == c;
      assert b[i] == c;
    }
  }

  /** A first line is taken off when it is the whole of the prefix. */
  lemma FirstLine(line: string, prefix: string, rest: string)
    requires '\n' !in line && '\n' !in prefix
    ensures prefix + "\n" <= line + "\n" + rest <==> line == prefix
    ensures !(prefix + "\n" <= line)
  {
    var s, p := line + "\n" + rest, prefix + "\n";
    assert p[|prefix|] == '\n' && s[|line|] == '\n';
    if p <= s {
      assert s[|prefix|] == '\n';
      assert forall i :: 0 <= i < |line| ==> s[i] == line[i];
      assert |prefix| >= |line|;
      assert forall i :: 0 <= i < |prefix| ==> s[i] == prefix[i];
      assert |prefix| == |line|;
      assert line == s[..|line|] == prefix;
    }
    assert '\n' in p;
    PrefixHolds(p, line, '\n');
  }

  lemma FirstLineTrimmed(line: string, prefix: string, rest: string)
    requires '\n' !in line && '\n' !in prefix
    ensures TrimPrefix(line + "\n" + rest, prefix + "\n") == if line == prefix then rest else line + "\n" + rest
    ensures TrimPrefix(line, prefix + "\n") == line
    ensures '\n' in line + "\n" + rest
  {
    FirstLine(line, prefix, rest);
    var s := line + "\n" + rest;
    assert s[|line + "\n"|..] == rest;
    assert s[|line|] == '\n';
  }

  /** The text test, on the message in lower case without its first line. */
  predicate TestsLower(m: string)
  {
    Contains(m, OBLIGATIONS) && '\n' !in m
  }

  lemma ProofTest(message: string)
    requires Edged(message)
    ensures OnlyInventoryProof(message) <==> TestsLower(TrimPrefix(ToLower(message), "context canceled" + "\n"))
  {
    EdgedIsTrimmed(message);
    assert "context canceled\n" == "context canceled" + "\n";
  }

  lemma LinesLower(first: string, rest: string)
    ensures ToLower(first + "\n" + rest) == ToLower(first) + "\n" + ToLower(rest)
  {
    ToLowerAppends(first + "\n", rest);
    ToLowerAppends(first, "\n");
    assert ToLower("\n") == "\n";
  }

  /** Two lines or more: only a cancellation in front is overlooked. */
  lemma ProofOfLines(p: Part, rest: string)
    requires Plain(p) && Edged(rest)
    ensures OnlyInventoryProof(Text(p) + "\n" + rest) <==> p.Canceled? && TestsLower(ToLower(rest))
  {
    var first := Text(p);
    PartIsLine(p);
    assert Edged(first + "\n" + rest);
    ProofTest(first + "\n" + rest);
    LinesLower(first, rest);
    ToLowerKeepsLines(first);
    FirstLineTrimmed(ToLower(first), "context canceled", ToLower(rest));
  }

  lemma ProofOfOne(p: Part)
    requires Plain(p)
    ensures OnlyInventoryProof(Text(p)) <==> IsProof(p)
    ensures TestsLower(ToLower(Text(p))) <==> IsProof(p)
  {
    PartIsLine(p);
    ToLowerKeepsLines(Text(p));
    ProofTest(Text(p));
    FirstLineTrimmed(ToLower(Text(p)), "context canceled", "");
  }

  predicate AllPlain(parts: seq<Part>)
  {
    forall i :: 0 <= i < |parts| ==> Plain(parts[i])
  }

  lemma ProofOfMany(parts: seq<Part>)
    requires |parts| > 1 && AllPlain(parts)
    ensures OnlyInventoryProof(Message(parts)) <==> parts[0].Canceled? && |parts| == 2 && IsProof(parts[1])
  {
    var rest := parts[1..];
    assert AllPlain(rest);
    MessageIsLines(rest);
    ToLowerKeepsLines(Message(rest));
    assert Plain(parts[0]);
    ProofOfLines(parts[0], Message(rest));
    if |rest| == 1 { ProofOfOne(rest[0]); }
  }

  /** Nothing but what is still seen, after a cancellation or alone. */
  predicate ProofOnly(parts: seq<Part>)
  {
    (|parts| == 1 && IsProof(parts[0])) || (|parts| == 2 && parts[0].Canceled? && IsProof(parts[1]))
  }

  /** The text test for a stale inventory proof recognises exactly the errors that consist
      of it, after a cancellation or alone. */
  lemma ProofMessageExactly(parts: seq<Part>)
    requires parts != [] && AllPlain(parts)
    ensures OnlyInventoryProof(Message(parts)) <==> ProofOnly(parts)
  {
    if |parts| == 1 {
      ProofOfOne(parts[0]);
    } else {
      ProofOfMany(parts);
    }
  }

  // Journal steps.

  datatype Presence = Present | Missing | Unknown

  /** One look at the machines: what is seen of each resource, and which releases are saved. */
  datatype Look = Look(sees: Resource -> Presence, saves: Resource -> bool)

  function Leftover(look: Look): Resource -> bool
  {
    (r: Resource) => RequiresCleanup(r) && look.sees(r) != Missing
  }

  function Kept(look: Look): Resource -> bool
  {
    (r: Resource) => !(RequiresCleanup(r) && look.sees(r) == Missing && look.saves(r))
  }

  /** The journal after what is missing was released. */
  function Released(o: Operation, look: Look): Operation
  {
    o.(resources := FilterBy(Kept(look), o.resources))
  }

  /** Missing, but its release could not be saved. */
  predicate Unsaved(look: Look, r: Resource)
  {
    RequiresCleanup(r) && look.sees(r) == Missing && !look.saves(r)
  }

  predicate ReleaseFails(o: Operation, look: Look)
  {
    exists i :: 0 <= i < |o.resources| && Unsaved(look, o.resources[i])
  }

  function LeftOver(o: Operation, look: Look): seq<Resource>
  {
    FilterBy(Leftover(look), o.resources)
  }

  /** Nothing left over and every release saved: then the journal is clean. */
  lemma ProofMeansClean(o: Operation, look: Look)
    ensures LeftOver(o, look) == [] && !ReleaseFails(o, look) ==> Clean(Released(o, look))
  {
    var released := Released(o, look);
    if LeftOver(o, look) == [] && !ReleaseFails(o, look) {
      forall i | 0 <= i < |released.resources| ensures !RequiresCleanup(released.resources[i]) {
        var r := released.resources[i];
        FilterCounts(Kept(look), o.resources, r);
        FilterCounts(Leftover(look), o.resources, r);
        assert r in multiset(released.resources);
        assert r in o.resources;
      }
    }
  }

  /** Releasing takes nothing but what was seen to be missing. */
  lemma ReleaseTakesMissing(o: Operation, look: Look, r: Resource)
    ensures r in o.resources && r !in Released(o, look).resources ==> RequiresCleanup(r) && look.sees(r) == Missing
    ensures r in Released(o, look).resources ==> r in o.resources
  {
    FilterCounts(Kept(look), o.resources, r);
    assert r in o.resources <==> r in multiset(o.resources);
    assert r in Released(o, look).resources <==> r in multiset(Released(o, look).resources);
  }

  /** A transition is checked against the table and either saved or undone. */
  function Moved(o: Operation, to: Phase, error: string, saved: bool): Operation
  {
    if ValidTransition(o.phase, to) && saved then o.(phase := to, error := Strings.TrimSpace(error)) else o
  }

  datatype Proof = Proof(op: Operation, left: seq<Resource>, failed: bool)

  /** Looking again while an abort settles: until nothing is left, a release fails, or the
      time for looks is over. */
  function Prove(o: Operation, aborting: bool, looks: seq<Look>): Proof
    requires looks != []
    decreases |looks|
  {
    var here := Proof(Released(o, looks[0]), LeftOver(o, looks[0]), ReleaseFails(o, looks[0]));
    if aborting && !here.failed && here.left != [] && |looks| > 1 then Prove(here.op, aborting, looks[1..]) else here
  }

  lemma {:induction false} ProveMeansClean(o: Operation, aborting: bool, looks: seq<Look>)
    requires looks != []
    ensures var p := Prove(o, aborting, looks);
            && p.op == o.(resources := p.op.resources)
            && (p.left == [] && !p.failed ==> Clean(p.op))
            && (Clean(o) ==> Clean(p.op))
    decreases |looks|
  {
    var next := Released(o, looks[0]);
    ProofMeansClean(o, looks[0]);
    if Clean(o) {
      forall i | 0 <= i < |next.resources| ensures !RequiresCleanup(next.resources[i]) {
        ReleaseTakesMissing(o, looks[0], next.resources[i]);
      }
    }
    if |looks| > 1 { ProveMeansClean(next, aborting, looks[1..]); }
  }

  // The life of one operation: the goroutine that works on it, a user who may abort it, and
  // a retry after its end. A user's abort may come between any two of the others' steps.

  datatype Thread = Idle | Working | Proven(aborting: bool, verified: bool, parts: seq<Part>)
                  | Retrying(original: Operation) | RetryProven(original: Operation, failure: seq<Part>)

  /** `recorded` is bookkeeping: the errors that were saved with the phase failed, in order. */
  datatype State = State(op: Operation, thread: Thread, recorded: seq<seq<Part>>)

  /** `cleanup` and `releases` are the errors of cleaning up and of saving releases. */
  datatype Event =
    | Claim(resource: Resource, saved: bool)
    | Advance(to: Phase, saved: bool)
    | Done
    | Finish(cause: seq<Part>, cleanup: seq<Part>, looks: seq<Look>, releases: seq<Part>)
    | Conclude(saved: bool)
    | Abort(saved: bool)
    | AskRetry(saved: bool)
    | Retry(cleanup: seq<Part>, look: Look, releases: seq<Part>, nodes: string)
    | ConcludeRetry(saved: bool)

  predicate Enabled(s: State, e: Event)
  {
    match e
    case Claim(_, _) => s.thread.Working?
    case Advance(to, _) => s.thread.Working? && !Terminal(to)
    case Done => s.thread.Working?
    case Finish(cause, _, looks, releases) => s.thread.Working? && cause != [] && looks != [] && releases != []
    case Conclude(_) => s.thread.Proven?
    case Abort(_) => s.op.kind.Run? && !Terminal(s.op.phase)
    case AskRetry(_) => Terminal(s.op.phase) && (CleanupResources(s.op) != [] || OnlyInventoryProof(s.op.error))
    case Retry(_, _, releases, _) => s.thread.Retrying? && releases != []
    case ConcludeRetry(_) => s.thread.RetryProven?
  }

  predicate Aborting(o: Operation, cause: seq<Part>)
  {
    HasCancel(cause) || (o.kind.Run? && o.phase.Stopping?)
  }

  /** The errors a finish reports. */
  function FinishParts(cause: seq<Part>, aborting: bool, cleanup: seq<Part>, releases: seq<Part>, proof: Proof): seq<Part>
  {
    var all := cause + (if aborting then cleanup else []) + (if proof.failed then releases else [])
               + (if proof.left != [] then [Remaining(|proof.left|)] else []);
    if aborting && !HasCancel(all) then [Canceled] + all else all
  }

  function Finished(s: State, cause: seq<Part>, cleanup: seq<Part>, looks: seq<Look>, releases: seq<Part>): State
    requires looks != []
  {
    var aborting := Aborting(s.op, cause);
    if !s.op.kind.Run? then s.(thread := Proven(aborting, true, cause))
    else
      var proof := Prove(s.op, aborting, looks);
      var verified := proof.left == [] && !proof.failed && (!aborting || cleanup == []);
      s.(op := proof.op, thread := Proven(aborting, verified, FinishParts(cause, aborting, cleanup, releases, proof)))
  }

  /** The phase an operation ends in. */
  function EndPhase(aborting: bool, verified: bool): Phase
  {
    if aborting && verified then Aborted else Failed
  }

  function RetryParts(o: Operation, cleanup: seq<Part>, look: Look, releases: seq<Part>, nodes: string): seq<Part>
  {
    cleanup + (if ReleaseFails(o, look) then releases else [])
    + (if LeftOver(o, look) != [] then [RemainingOn(|LeftOver(o, look)|, nodes)] else [])
  }

  /** Where a proved retry goes. */
  function RetryTarget(original: Operation): Phase
  {
    var target := if Terminal(original.phase) then original.phase else Failed;
    if target == Failed && OnlyInventoryProof(original.error) then Stopped else target
  }

  function RetryError(original: Operation): string
  {
    if RetryTarget(original) != Failed then ""
    else if Strings.TrimSpace(original.error) == "" then "the recipe operation failed before cleanup completed"
    else Strings.TrimSpace(original.error)
  }

  function Next(s: State, e: Event): State
    requires Enabled(s, e)
  {
    match e
    case Claim(r, saved) => if saved && r !in s.op.resources then s.(op := s.op.(resources := s.op.resources + [r])) else s
    case Advance(to, saved) => s.(op := Moved(s.op, to, "", saved))
    case Done => s.(thread := Idle)
    case Finish(cause, cleanup, looks, releases) => Finished(s, cause, cleanup, looks, releases)
    case Conclude(saved) =>
      var to := EndPhase(s.thread.aborting, s.thread.verified);
      State(Moved(s.op, to, Message(s.thread.parts), saved), Idle, Noted(s.recorded, s.op, to, s.thread.parts, saved))
    case Abort(saved) => s.(op := Moved(s.op, Stopping, "", saved))
    case AskRetry(saved) =>
      if saved then s.(op := Moved(s.op, Recovering, "", saved), thread := Retrying(s.op)) else s
    case Retry(cleanup, look, releases, nodes) =>
      s.(op := Released(s.op, look), thread := RetryProven(s.thread.original, RetryParts(s.op, cleanup, look, releases, nodes)))
    case ConcludeRetry(saved) =>
      var o := s.thread.original;
      if s.thread.failure != []
      then State(Moved(s.op, Failed, Message(s.thread.failure), saved), Idle, Noted(s.recorded, s.op, Failed, s.thread.failure, saved))
      else s.(op := Moved(s.op, RetryTarget(o), RetryError(o), saved), thread := Idle)
  }

  function Noted(recorded: seq<seq<Part>>, o: Operation, to: Phase, parts: seq<Part>, saved: bool): seq<seq<Part>>
  {
    if to == Failed && saved && ValidTransition(o.phase, to) then recorded + [parts] else recorded
  }

  ghost predicate Inv(s: State)
  {
    && (s.op.kind.Run? && s.op.phase == Aborted ==> Clean(s.op))
    && (s.thread != Idle ==> !Terminal(s.op.phase))
    && (s.thread.Proven? && s.op.kind.Run? && s.thread.verified ==> Clean(s.op))
    && (s.thread.RetryProven? && s.thread.failure == [] ==> Clean(s.op))
    && (s.thread.Retrying? || s.thread.RetryProven? ==> Terminal(s.thread.original.phase) && s.op.phase in {Recovering, Stopping})
    && (s.thread.Proven? && !s.op.kind.Run? ==> s.thread.verified && (s.thread.aborting <==> HasCancel(s.thread.parts)))
  }

  lemma FilterEmpty(o: Operation)
    ensures CleanupResources(o) == [] <==> Clean(o)
  {
    forall r ensures multiset(CleanupResources(o))[r] == if RequiresCleanup(r) then multiset(o.resources)[r] else 0 {
      FilterCounts((r: Resource) => RequiresCleanup(r), o.resources, r);
    }
    if CleanupResources(o) != [] {
      assert CleanupResources(o)[0] in multiset(o.resources);
      assert CleanupResources(o)[0] in multiset(CleanupResources(o));
    } else {
      forall i | 0 <= i < |o.resources| ensures !RequiresCleanup(o.resources[i]) {
        assert o.resources[i] in multiset(o.resources);
      }
    }
  }

  lemma StepKeepsInv(s: State, e: Event)
    requires Inv(s) && Enabled(s, e)
    ensures Inv(Next(s, e)) && Next(s, e).op.kind == s.op.kind
  {
    match e
    case Finish(cause, cleanup, looks, releases) =>
      ProveMeansClean(s.op, Aborting(s.op, cause), looks);
    case Retry(cleanup, look, releases, nodes) =>
      ProofMeansClean(s.op, look);
    case _ =>
  }

  /** The states of a life, from its first to its last. */
  ghost predicate Life(states: seq<State>, events: seq<Event>)
  {
    && |states| == |events| + 1
    && forall i :: 0 <= i < |events| ==> Enabled(states[i], events[i]) && states[i + 1] == Next(states[i], events[i])
  }

  lemma {:induction false} InvHolds(states: seq<State>, events: seq<Event>, k: nat)
    requires Life(states, events) && k < |states|
    requires states[0].thread.Working? && !Terminal(states[0].op.phase)
    ensures Inv(states[k]) && states[k].op.kind == states[0].op.kind
  {
    if k > 0 {
      InvHolds(states, events, k - 1);
      assert Enabled(states[k - 1], events[k - 1]) && states[k] == Next(states[k - 1], events[k - 1]);
      StepKeepsInv(states[k - 1], events[k - 1]);
    }
  }

  /** A run is never in the aborted phase with a resource on record that needs cleaning up. */
  lemma AbortedRunsAreClean(states: seq<State>, events: seq<Event>, k: nat)
    requires Life(states, events) && k < |states|
    requires states[0].thread.Working? && !Terminal(states[0].op.phase)
    requires states[k].op.kind.Run? && states[k].op.phase == Aborted
    ensures Clean(states[k].op)
  {
    InvHolds(states, events, k);
  }

  /** The phases a user may abort a run in. */
  predicate Busy(p: Phase)
  {
    p in {Preparing, Prepared, Switching, Starting, Verifying, Active, Stopping, Recovering}
  }

  /** Between the proof and the end that is recorded, only a user's abort may come. */
  lemma {:induction false} ProofWaits(states: seq<State>, events: seq<Event>, f: nat, c: nat)
    requires Life(states, events) && f < c < |states| && events[f].Finish? && forall i :: f < i < c ==> !events[i].Conclude?
    requires states[0].thread.Working? && !Terminal(states[0].op.phase)
    ensures states[c].thread == states[f + 1].thread && states[c].op.resources == states[f + 1].op.resources
    ensures states[f + 1].op.phase == Stopping ==> states[c].op.phase == Stopping
  {
    if c > f + 1 {
      ProofWaits(states, events, f, c - 1);
      InvHolds(states, events, c - 1);
      ProvenAfter(states[f], events[f]);
      ProvenStays(states[c - 1], events[c - 1]);
    }
  }

  lemma ProvenAfter(s: State, e: Event)
    requires Enabled(s, e) && e.Finish?
    ensures Next(s, e).thread.Proven?
  {
  }

  lemma ProvenStays(s: State, e: Event)
    requires s.thread.Proven? && !Terminal(s.op.phase) && Enabled(s, e) && !e.Conclude?
    ensures Next(s, e).thread == s.thread && Next(s, e).op.resources == s.op.resources
    ensures s.op.phase == Stopping ==> Next(s, e).op.phase == Stopping
  {
  }

  /** The proof that ends a run found nothing left and could save every release. */
  predicate Proves(o: Operation, cause: seq<Part>, looks: seq<Look>)
    requires looks != []
  {
    var proof := Prove(o, Aborting(o, cause), looks);
    proof.left == [] && !proof.failed
  }

  /** When its end is saved, a run is aborted exactly when it was canceled or was stopping, the
      cleanup worked, its proof was clean, and it does not count as active. */
  lemma EndsAbortedExactly(states: seq<State>, events: seq<Event>, f: nat, c: nat)
    requires Life(states, events) && f < c < |events| && events[f].Finish? && events[c] == Conclude(true)
    requires forall i :: f < i < c ==> !events[i].Conclude?
    requires states[0].thread.Working? && !Terminal(states[0].op.phase) && states[0].op.kind.Run?
    ensures var s, e := states[f], events[f];
            && e.looks != []
            && (states[c + 1].op.phase == Aborted <==>
                  (HasCancel(e.cause) || s.op.phase == Stopping) && e.cleanup == [] && Proves(s.op, e.cause, e.looks) && states[c].op.phase != Active)
            && (states[c + 1].op.phase == Failed <==> states[c + 1].op.phase != Aborted && states[c].op.phase != Active)
  {
    assert Enabled(states[f], events[f]) && states[f + 1] == Next(states[f], events[f]);
    assert Enabled(states[c], events[c]) && states[c + 1] == Next(states[c], events[c]);
    ProofWaits(states, events, f, c);
    InvHolds(states, events, f);
    InvHolds(states, events, c);
  }

  /** While its goroutine works on and does not take the run into recovery, an aborted run
      stays in the phase the abort gave it. */
  lemma {:induction false} AbortIsKept(states: seq<State>, events: seq<Event>, k: nat, f: nat)
    requires Life(states, events) && k < f < |states| && events[k] == Abort(true) && Busy(states[k].op.phase)
    requires states[f].thread.Working? && forall i :: k < i < f ==> events[i] != Advance(Recovering, true)
    ensures states[f].op.phase == Stopping
  {
    assert Enabled(states[f - 1], events[f - 1]) && states[f] == Next(states[f - 1], events[f - 1]);
    if f > k + 1 { AbortIsKept(states, events, k, f - 1); }
  }

  /** An accepted abort, followed by a cleanup that works, a clean proof and an end that is
      saved, puts the run in the aborted phase, with nothing left to clean up. */
  lemma AbortEndsAborted(states: seq<State>, events: seq<Event>, k: nat, f: nat, c: nat)
    requires Life(states, events) && k < f < c < |events| && events[k] == Abort(true) && Busy(states[k].op.phase)
    requires events[f].Finish? && events[c] == Conclude(true) && events[f].cleanup == []
    requires events[f].looks != [] && Proves(states[f].op, events[f].cause, events[f].looks)
    requires forall i :: k < i < f ==> events[i] != Advance(Recovering, true)
    requires forall i :: f < i < c ==> !events[i].Conclude?
    requires states[0].thread.Working? && !Terminal(states[0].op.phase) && states[0].op.kind.Run?
    ensures states[c + 1].op.phase == Aborted && Clean(states[c + 1].op)
  {
    assert Enabled(states[f], events[f]) && states[f + 1] == Next(states[f], events[f]);
    AbortIsKept(states, events, k, f);
    ProveMeansClean(states[f].op, Aborting(states[f].op, events[f].cause), events[f].looks);
    ProofWaits(states, events, f, c);
    EndsAbortedExactly(states, events, f, c);
    InvHolds(states, events, c + 1);
    AbortedRunsAreClean(states, events, c + 1);
  }

  /** A retry ends in the phase it set out from, or as stopped, only with a clean record;
      otherwise it ends as failed, or where it was if the end could not be saved. */
  lemma RetryEndsOnEvidence(states: seq<State>, events: seq<Event>, k: nat)
    requires Life(states, events) && k < |events| && events[k].ConcludeRetry?
    requires states[0].thread.Working? && !Terminal(states[0].op.phase)
    ensures var s, next := states[k], states[k + 1];
            var original := s.thread.original;
            && Terminal(original.phase)
            && next.op.phase in {s.op.phase, Failed, RetryTarget(original)}
            && (next.op.phase in {Aborted, Stopped} ==> Clean(next.op))
            && (s.thread.failure == [] && next.op.phase != s.op.phase ==> Clean(next.op) && next.op.phase == RetryTarget(original))
            && (s.thread.failure == [] && events[k].saved ==> Clean(next.op) && next.op.phase == RetryTarget(original))
            && (s.thread.failure != [] && events[k].saved ==> next.op.phase == Failed)
            && (RetryTarget(original) != original.phase <==> original.phase == Failed && OnlyInventoryProof(original.error))
            && (s.thread.failure != [] ==> next.op.phase in {s.op.phase, Failed})
  {
    InvHolds(states, events, k);
    RetryEnds(states[k], events[k].saved);
  }

  lemma RetryEnds(s: State, saved: bool)
    requires Inv(s) && Enabled(s, ConcludeRetry(saved))
    ensures var next, original := Next(s, ConcludeRetry(saved)), s.thread.original;
            && Terminal(original.phase)
            && (s.thread.failure == [] ==> Clean(next.op) && next.op.phase == if saved then RetryTarget(original) else s.op.phase)
            && (s.thread.failure != [] ==> next.op.phase == if saved then Failed else s.op.phase)
            && s.op.phase in {Recovering, Stopping}
            && (RetryTarget(original) != original.phase <==> original.phase == Failed && OnlyInventoryProof(original.error))
  {
  }

  /** That holds of runs only, and exactly: a step of any life enters the aborted phase with
      a resource that needs cleaning up when and only when it saves the end of an operation
      that is no run, was canceled, and still has one. */
  lemma AbortedUncleanExactly(states: seq<State>, events: seq<Event>, k: nat)
    requires Life(states, events) && k < |events|
    requires states[0].thread.Working? && !Terminal(states[0].op.phase)
    ensures var s, e, next := states[k], events[k], states[k + 1];
            s.op.phase != Aborted && next.op.phase == Aborted && !Clean(next.op) <==>
            e == Conclude(true) && !s.op.kind.Run? && HasCancel(s.thread.parts) && !Clean(s.op) && ValidTransition(s.op.phase, Aborted)
  {
    InvHolds(states, events, k);
    assert Enabled(states[k], events[k]) && states[k + 1] == Next(states[k], events[k]);
    StepKeepsInv(states[k], events[k]);
    match events[k]
    case Finish(cause, cleanup, looks, releases) => ProveMeansClean(states[k].op, Aborting(states[k].op, cause), looks);
    case _ =>
  }

  /** A check that ends so: its error is a cancellation, or carries one, as when a probe
      cancels its own context. */
  lemma CanceledCheckExample(r: Resource, cause: Part, look: Look, other: Part)
    requires RequiresCleanup(r) && (cause.Canceled? || cause.Wrapping?)
    ensures var s := State(Operation(Check, "recipe", Checking, [r], ""), Working, []);
            var proved := Next(s, Finish([cause], [], [look], [other]));
            var end := Next(proved, Conclude(true));
            end.op.phase == Aborted && !Clean(end.op)
  {
    var s := State(Operation(Check, "recipe", Checking, [r], ""), Working, []);
    assert [cause][0] == cause;
    var proved := Next(s, Finish([cause], [], [look], [other]));
    assert proved == State(s.op, Proven(true, true, [cause]), []);
    assert Next(proved, Conclude(true)).op.resources[0] == r;
  }

  // Why an operation failed, over its life.

  predicate PlainEvent(e: Event)
  {
    match e
    case Finish(cause, cleanup, _, releases) => AllPlain(cause) && AllPlain(cleanup) && AllPlain(releases)
    case Retry(cleanup, _, releases, nodes) => AllPlain(cleanup) && AllPlain(releases) && Plain(RemainingOn(0, nodes))
    case _ => true
  }

  predicate Says(error: string, parts: seq<Part>)
  {
    parts != [] && AllPlain(parts) && error == Strings.TrimSpace(Message(parts))
  }

  function LastOf(recorded: seq<seq<Part>>): seq<Part>
  {
    if recorded == [] then [] else recorded[|recorded| - 1]
  }

  /** The error of a failed operation is the last one recorded. */
  ghost predicate Told(s: State)
  {
    && (s.op.phase == Failed ==> Says(s.op.error, LastOf(s.recorded)))
    && (s.thread.Proven? ==> s.thread.parts != [] && AllPlain(s.thread.parts))
    && (s.thread.RetryProven? ==> AllPlain(s.thread.failure))
    && (s.thread.Retrying? || s.thread.RetryProven? ==>
          (s.thread.original.phase == Failed ==> Says(s.thread.original.error, LastOf(s.recorded))))
  }

  lemma SaidTrimmed(error: string, parts: seq<Part>)
    requires Says(error, parts)
    ensures error == Message(parts) && Strings.TrimSpace(error) == error && error != ""
    ensures OnlyInventoryProof(error) <==> ProofOnly(parts)
  {
    MessageIsLines(parts);
    EdgedIsTrimmed(Message(parts));
    ProofMessageExactly(parts);
  }

  lemma StepKeepsTold(s: State, e: Event)
    requires Inv(s) && Told(s) && Enabled(s, e) && PlainEvent(e)
    ensures Told(Next(s, e))
  {
    match e
    case Finish(cause, cleanup, looks, releases) => FinishIsPlain(s, cause, cleanup, looks, releases);
    case ConcludeRetry(saved) =>
      if s.thread.failure == [] && s.thread.original.phase == Failed { SaidTrimmed(s.thread.original.error, LastOf(s.recorded)); }
    case _ =>
  }

  lemma FinishIsPlain(s: State, cause: seq<Part>, cleanup: seq<Part>, looks: seq<Look>, releases: seq<Part>)
    requires cause != [] && looks != [] && AllPlain(cause) && AllPlain(cleanup) && AllPlain(releases)
    ensures var t := Finished(s, cause, cleanup, looks, releases);
            && t.recorded == s.recorded && t.op.phase == s.op.phase && t.op.error == s.op.error
            && t.thread.parts != [] && AllPlain(t.thread.parts)
  {
    ProveMeansClean(s.op, Aborting(s.op, cause), looks);
  }

  lemma {:induction false} ToldThroughout(states: seq<State>, events: seq<Event>, k: nat)
    requires Life(states, events) && k < |states| && forall i :: 0 <= i < |events| ==> PlainEvent(events[i])
    requires states[0].thread.Working? && !Terminal(states[0].op.phase)
    ensures Inv(states[k]) && Told(states[k])
  {
    InvHolds(states, events, k);
    if k > 0 {
      ToldThroughout(states, events, k - 1);
      assert Enabled(states[k - 1], events[k - 1]) && states[k] == Next(states[k - 1], events[k - 1]);
      StepKeepsTold(states[k - 1], events[k - 1]);
    }
  }

  /** Over any life: a retry of a failed operation that succeeds ends it as stopped exactly
      when the last failure recorded was a stale inventory proof and nothing else. So a
      first failure that had a reason is forgotten exactly when a later one without a reason
      was recorded over it. */
  lemma RetryStopsExactly(states: seq<State>, events: seq<Event>, k: nat)
    requires Life(states, events) && k < |events| && forall i :: 0 <= i < |events| ==> PlainEvent(events[i])
    requires states[0].thread.Working? && !Terminal(states[0].op.phase)
    requires events[k] == ConcludeRetry(true) && states[k].thread.original.phase == Failed && states[k].thread.failure == []
    ensures var recorded := states[k].recorded;
            && recorded != []
            && (states[k + 1].op.phase == Stopped <==> ProofOnly(LastOf(recorded)))
            && (states[k + 1].op.phase == Failed <==> !ProofOnly(LastOf(recorded)))
            && (!ProofOnly(recorded[0]) && states[k + 1].op.phase == Stopped ==> |recorded| > 1)
  {
    StoppedPhase(states, events, k);
    LastTells(states[k].recorded, states[k + 1].op.phase);
  }

  lemma LastTells(recorded: seq<seq<Part>>, phase: Phase)
    requires recorded != [] && phase == if ProofOnly(LastOf(recorded)) then Stopped else Failed
    ensures phase == Stopped <==> ProofOnly(LastOf(recorded))
    ensures phase == Failed <==> !ProofOnly(LastOf(recorded))
    ensures !ProofOnly(recorded[0]) && phase == Stopped ==> |recorded| > 1
  {
  }

  lemma StoppedPhase(states: seq<State>, events: seq<Event>, k: nat)
    requires Life(states, events) && k < |events| && forall i :: 0 <= i < |events| ==> PlainEvent(events[i])
    requires states[0].thread.Working? && !Terminal(states[0].op.phase)
    requires events[k] == ConcludeRetry(true) && states[k].thread.original.phase == Failed && states[k].thread.failure == []
    ensures states[k].recorded != [] && states[k + 1].op.phase == if ProofOnly(LastOf(states[k].recorded)) then Stopped else Failed
  {
    ConcludesAt(states, events, k);
    OriginalError(states, events, k);
    TargetExactly(states[k].thread.original, LastOf(states[k].recorded));
    ConcludedPhase(states[k]);
  }

  lemma ConcludesAt(states: seq<State>, events: seq<Event>, k: nat)
    requires Life(states, events) && k < |events| && events[k] == ConcludeRetry(true)
    ensures states[k].thread.RetryProven? && states[k + 1] == Next(states[k], ConcludeRetry(true))
  {
    assert Enabled(states[k], events[k]) && states[k + 1] == Next(states[k], events[k]);
  }

  lemma OriginalError(states: seq<State>, events: seq<Event>, k: nat)
    requires Life(states, events) && k < |states| && forall i :: 0 <= i < |events| ==> PlainEvent(events[i])
    requires states[0].thread.Working? && !Terminal(states[0].op.phase)
    requires states[k].thread.RetryProven? && states[k].thread.original.phase == Failed
    ensures states[k].op.phase in {Recovering, Stopping} && Says(states[k].thread.original.error, LastOf(states[k].recorded))
  {
    ToldThroughout(states, events, k);
  }

  lemma TargetExactly(o: Operation, parts: seq<Part>)
    requires o.phase == Failed && Says(o.error, parts)
    ensures RetryTarget(o) == if ProofOnly(parts) then Stopped else Failed
  {
    SaidTrimmed(o.error, parts);
  }

  lemma ConcludedPhase(s: State)
    requires s.thread.RetryProven? && s.thread.failure == [] && s.op.phase in {Recovering, Stopping}
    requires RetryTarget(s.thread.original) in {Stopped, Failed}
    ensures Next(s, ConcludeRetry(true)).op.phase == RetryTarget(s.thread.original)
  {
  }

  /** What a retry records has no reason exactly when it found something left, and neither
      cleaning up nor releasing failed (they may have been cut short), or they reported
      nothing else themselves. */
  lemma RetryRecordsProofExactly(o: Operation, cleanup: seq<Part>, look: Look, releases: seq<Part>, nodes: string)
    ensures var errors := cleanup + if ReleaseFails(o, look) then releases else [];
            ProofOnly(RetryParts(o, cleanup, look, releases, nodes)) <==>
            if LeftOver(o, look) != [] then errors == [] || errors == [Canceled] else ProofOnly(errors)
  {
    var errors := cleanup + if ReleaseFails(o, look) then releases else [];
    var parts := RetryParts(o, cleanup, look, releases, nodes);
    if LeftOver(o, look) != [] {
      assert parts == errors + [RemainingOn(|LeftOver(o, look)|, nodes)];
    } else {
      assert parts == errors;
    }
  }

  /** And what the end of a run records has none exactly when it was canceled, nothing else
      went wrong, and something was left, or when its cause says nothing else. */
  lemma FinishRecordsProofExactly(o: Operation, cause: seq<Part>, cleanup: seq<Part>, looks: seq<Look>, releases: seq<Part>)
    requires cause != [] && looks != []
    ensures var aborting := Aborting(o, cause);
            var proof := Prove(o, aborting, looks);
            var errors := cause + (if aborting then cleanup else []) + (if proof.failed then releases else []);
            ProofOnly(FinishParts(cause, aborting, cleanup, releases, proof)) <==>
            if proof.left != [] then errors == [Canceled] else ProofOnly(errors)
  {
    var aborting := Aborting(o, cause);
    var proof := Prove(o, aborting, looks);
    var errors := cause + (if aborting then cleanup else []) + (if proof.failed then releases else []);
    var parts := FinishParts(cause, aborting, cleanup, releases, proof);
    if proof.left != [] {
      CanceledInFront(errors + [Remaining(|proof.left|)], parts);
      if errors == [Canceled] { assert (errors + [Remaining(|proof.left|)])[0].Canceled?; }
    } else {
      assert errors + [] == errors;
      CanceledInFront(errors, parts);
    }
  }

  /** A cancellation is put in front of errors that have none. */
  lemma CanceledInFront(all: seq<Part>, parts: seq<Part>)
    requires all != [] && (parts == all || (parts == [Canceled] + all && !HasCancel(all)))
    ensures ProofOnly(parts) <==> ProofOnly(all)
  {
    if parts == [Canceled] + all { assert !all[0].Canceled?; }
  }

  lemma OneSeen(o: Operation, r: Resource, look: Look)
    requires o.resources == [r] && RequiresCleanup(r) && look.saves(r)
    ensures !ReleaseFails(o, look)
    ensures look.sees(r) != Missing ==> LeftOver(o, look) == [r] && Released(o, look) == o
    ensures look.sees(r) == Missing ==> LeftOver(o, look) == [] && Released(o, look) == o.(resources := [])
  {
    FilterOne(Kept(look), r);
    FilterOne(Leftover(look), r);
  }

  /** A retry of a failed operation with one resource, which is still seen or gone. */
  function Retried(s: State, look: Look, nodes: string): State
    requires Terminal(s.op.phase) && Enabled(s, AskRetry(true))
  {
    Next(Next(Next(s, AskRetry(true)), Retry([], look, [Canceled], nodes)), ConcludeRetry(true))
  }

  lemma RetryStillSees(s: State, r: Resource, look: Look, nodes: string)
    requires s.op.phase == Failed && s.op.resources == [r] && RequiresCleanup(r) && look.saves(r)
    requires look.sees(r) != Missing && Plain(RemainingOn(1, nodes))
    ensures Enabled(s, AskRetry(true))
    ensures Retried(s, look, nodes) == State(s.op.(error := Text(RemainingOn(1, nodes))), Idle, s.recorded + [[RemainingOn(1, nodes)]])
  {
    OneToAsk(s, r);
    var asked := Next(s, AskRetry(true));
    OneSeen(asked.op, r, look);
    assert RetryParts(asked.op, [], look, [Canceled], nodes) == [RemainingOn(1, nodes)];
    RemainingIsTrimmed(nodes);
    FailsWith(Next(asked, Retry([], look, [Canceled], nodes)), RemainingOn(1, nodes));
  }

  lemma FailsWith(s: State, p: Part)
    requires s.thread.RetryProven? && s.thread.failure == [p] && s.op.phase == Recovering
    ensures Next(s, ConcludeRetry(true)) == State(s.op.(phase := Failed, error := Strings.TrimSpace(Message([p]))), Idle, s.recorded + [[p]])
  {
  }

  lemma OneToAsk(s: State, r: Resource)
    requires s.op.phase == Failed && s.op.resources == [r] && RequiresCleanup(r)
    ensures Enabled(s, AskRetry(true))
  {
    FilterEmpty(s.op);
    assert s.op.resources[0] == r;
  }

  lemma RemainingIsTrimmed(nodes: string)
    requires Plain(RemainingOn(1, nodes))
    ensures Strings.TrimSpace(Text(RemainingOn(1, nodes))) == Text(RemainingOn(1, nodes)) == Message([RemainingOn(1, nodes)])
  {
    PartIsLine(RemainingOn(1, nodes));
    EdgedIsTrimmed(Text(RemainingOn(1, nodes)));
  }

  lemma RetryFindsNone(s: State, r: Resource, look: Look, nodes: string)
    requires s.op.phase == Failed && s.op.resources == [r] && RequiresCleanup(r) && look.saves(r)
    requires look.sees(r) == Missing && RetryTarget(s.op) in {Stopped, Failed}
    ensures Enabled(s, AskRetry(true)) && Retried(s, look, nodes).op.phase == RetryTarget(s.op)
  {
    FilterEmpty(s.op);
    assert s.op.resources[0] == r;
    var asked := Next(s, AskRetry(true));
    OneSeen(asked.op, r, look);
    var proved := Next(asked, Retry([], look, [Canceled], nodes));
    assert proved.thread == RetryProven(s.op, []);
    ConcludedPhase(proved);
  }

  /** A run fails for a reason and leaves a resource; a first retry still sees it; a second
      one does not, and ends the failed run as stopped. */
  lemma ForgottenReasonExample(r: Resource, text: string, nodes: string, seen: Look, gone: Look) returns (s1: State, s2: State)
    requires RequiresCleanup(r) && PlainLine(text) && Plain(RemainingOn(1, nodes)) && seen.saves(r) && gone.saves(r)
    requires seen.sees(r) == Present && gone.sees(r) == Missing
    ensures var s0 := State(Operation(Run, "recipe", Starting, [r], ""), Working, []);
            s1 == Next(Next(s0, Finish([Other(text)], [], [seen], [Canceled])), Conclude(true))
    ensures s1.op.phase == Failed && s1.recorded == [[Other(text), Remaining(1)]] && Enabled(s1, AskRetry(true))
    ensures s2 == Retried(s1, seen, nodes) && s2.op.phase == Failed && Enabled(s2, AskRetry(true))
    ensures Retried(s2, gone, nodes).op.phase == Stopped
  {
    s1 := FailedForReason(r, text, seen);
    RetryStillSees(s1, r, seen, nodes);
    s2 := Retried(s1, seen, nodes);
    RemainingIsTrimmed(nodes);
    TargetExactly(s2.op, [RemainingOn(1, nodes)]);
    RetryFindsNone(s2, r, gone, nodes);
  }

  lemma FailedForReason(r: Resource, text: string, seen: Look) returns (s: State)
    requires RequiresCleanup(r) && PlainLine(text) && seen.saves(r) && seen.sees(r) == Present
    ensures s == Next(Next(State(Operation(Run, "recipe", Starting, [r], ""), Working, []), Finish([Other(text)], [], [seen], [Canceled])), Conclude(true))
    ensures s.op.phase == Failed && s.op.resources == [r] && s.recorded == [[Other(text), Remaining(1)]]
  {
    var start := State(Operation(Run, "recipe", Starting, [r], ""), Working, []);
    OneSeen(start.op, r, seen);
    var proved := Next(start, Finish([Other(text)], [], [seen], [Canceled]));
    assert !HasCancel([Other(text)]) && [seen][0] == seen;
    assert proved.thread.parts == [Other(text), Remaining(1)];
    s := Next(proved, Conclude(true));
  }

  function Except(r: Resource): Resource -> bool
  {
    (x: Resource) => x != r
  }

  function KeptSoFar(look: Look, done: seq<Resource>): Resource -> bool
  {
    (r: Resource) => !(r in done && !Kept(look)(r))
  }

  /** Looking at one more resource. */
  lemma OneReleased(look: Look, done: seq<Resource>, r: Resource, inventory: seq<Resource>)
    ensures FilterBy(KeptSoFar(look, done + [r]), inventory) ==
            if Kept(look)(r) then FilterBy(KeptSoFar(look, done), inventory)
            else FilterBy(Except(r), FilterBy(KeptSoFar(look, done), inventory))
  {
    if Kept(look)(r) {
      FilterAgrees(KeptSoFar(look, done), KeptSoFar(look, done + [r]), inventory);
    } else {
      FilterTwice(Except(r), KeptSoFar(look, done), inventory);
      FilterAgrees(Both(Except(r), KeptSoFar(look, done)), KeptSoFar(look, done + [r]), inventory);
    }
  }

  /** The first `i` resources have been looked at. */
  ghost predicate Looked(look: Look, inventory: seq<Resource>, i: nat, resources: seq<Resource>, left: seq<Resource>, failed: bool)
    requires i <= |inventory|
  {
    && resources == FilterBy(KeptSoFar(look, inventory[..i]), inventory)
    && left == FilterBy(Leftover(look), inventory[..i])
    && (failed <==> exists k :: 0 <= k < i && Unsaved(look, inventory[k]))
  }

  lemma LookedAtOneMore(look: Look, inventory: seq<Resource>, i: nat, resources: seq<Resource>, left: seq<Resource>, failed: bool)
    requires i < |inventory| && Looked(look, inventory, i, resources, left, failed)
    ensures var r := inventory[i];
            Looked(look, inventory, i + 1, if Kept(look)(r) then resources else FilterBy(Except(r), resources),
                   if Leftover(look)(r) then left + [r] else left, failed || Unsaved(look, r))
  {
    var done, r := inventory[..i], inventory[i];
    assert inventory[..i + 1] == done + [r];
    FilterAppends(Leftover(look), done, r);
    OneReleased(look, done, r, inventory);
  }

  lemma LookedAtAll(look: Look, o: Operation, resources: seq<Resource>, left: seq<Resource>, failed: bool)
    requires Looked(look, o.resources, |o.resources|, resources, left, failed)
    ensures resources == Released(o, look).resources && left == LeftOver(o, look) && failed == ReleaseFails(o, look)
  {
    assert o.resources[..|o.resources|] == o.resources;
    FilterAgrees(KeptSoFar(look, o.resources), Kept(look), o.resources);
  }

  class Server {
    var op: Operation

    constructor (op: Operation)
      ensures this.op == op
    {
      this.op := op;
    }

    method Transition(to: Phase, error: string, saved: bool) returns (ok: bool)
      modifies this
      ensures op == Moved(old(op), to, error, saved) && ok == (ValidTransition(old(op).phase, to) && saved)
    {
      if !ValidTransition(op.phase, to) { return false; }
      var previous := op;
      op := op.(phase := to, error := Strings.TrimSpace(error));
      if !saved { op := previous; }
      ok := saved;
    }

    method Release(r: Resource, saved: bool) returns (ok: bool)
      modifies this
      ensures op == if saved then old(op).(resources := FilterBy(Except(r), old(op).resources)) else old(op)
      ensures ok == saved
      ensures ok ==> r !in op.resources && multiset(op.resources) == multiset(old(op).resources)[r := 0]
    {
      forall x ensures multiset(FilterBy(Except(r), op.resources))[x] == if x == r then 0 else multiset(op.resources)[x] {
        FilterCounts(Except(r), op.resources, x);
      }
      assert r in FilterBy(Except(r), op.resources) <==> r in multiset(FilterBy(Except(r), op.resources));
      if saved { op := op.(resources := FilterBy(Except(r), op.resources)); }
      ok := saved;
    }

    /** Releases what the inventory shows to be missing, and reports the rest. */
    method ReleaseMissing(look: Look) returns (left: seq<Resource>, failed: bool)
      modifies this
      ensures op == Released(old(op), look) && left == LeftOver(old(op), look) && failed == ReleaseFails(old(op), look)
    {
      var inventory := op.resources;
      left, failed := [], false;
      FilterKeepsAll(KeptSoFar(look, []), inventory);
      for i := 0 to |inventory|
        invariant op == old(op).(resources := op.resources)
        invariant Looked(look, inventory, i, op.resources, left, failed)
      {
        var r := inventory[i];
        LookedAtOneMore(look, inventory, i, op.resources, left, failed);
        if RequiresCleanup(r) {
          if look.sees(r) == Missing {
            var released := Release(r, look.saves(r));
            if !released { failed := true; }
          } else {
            left := left + [r];
          }
        }
      }
      LookedAtAll(look, old(op), op.resources, left, failed);
    }

    /** Ends an operation. Only an abort waits for resources to go, and only a run is asked
        for a proof. */
    method FinishOperation(cause: seq<Part>, cleanup: seq<Part>, looks: seq<Look>, releases: seq<Part>, saved: bool) returns (parts: seq<Part>)
      requires cause != [] && looks != [] && releases != []
      modifies this
      ensures var proved := Next(State(old(op), Working, []), Finish(cause, cleanup, looks, releases));
              op == Next(proved, Conclude(saved)).op && parts == proved.thread.parts
    {
      if op.kind.Run? {
        var aborting := HasCancel(cause) || op.phase.Stopping?;
        var verified;
        verified, parts := ProveRun(aborting, cause, cleanup, looks, releases);
        var _ := Transition(if aborting && verified then Aborted else Failed, Message(parts), saved);
      } else {
        parts := cause;
        var _ := Transition(if HasCancel(cause) then Aborted else Failed, Message(parts), saved);
      }
    }

    method ProveRun(aborting: bool, cause: seq<Part>, cleanup: seq<Part>, looks: seq<Look>, releases: seq<Part>)
      returns (verified: bool, parts: seq<Part>)
      requires looks != []
      modifies this
      ensures var proof := Prove(old(op), aborting, looks);
              && op == proof.op && verified == (proof.left == [] && !proof.failed && (!aborting || cleanup == []))
              && parts == FinishParts(cause, aborting, cleanup, releases, proof)
    {
      parts := cause;
      if aborting { parts := parts + cleanup; }
      var left, failed := Settle(aborting, looks);
      verified := left == [] && !failed && (!aborting || cleanup == []);
      if failed { parts := parts + releases; }
      if left != [] { parts := parts + [Remaining(|left|)]; }
      assert parts == cause + (if aborting then cleanup else []) + (if failed then releases else [])
                      + (if left != [] then [Remaining(|left|)] else []);
      if aborting && !HasCancel(parts) { parts := [Canceled] + parts; }
    }

    method Settle(aborting: bool, looks: seq<Look>) returns (left: seq<Resource>, failed: bool)
      requires looks != []
      modifies this
      ensures Proof(op, left, failed) == Prove(old(op), aborting, looks)
    {
      left, failed := ReleaseMissing(looks[0]);
      var next := 1;
      while aborting && !failed && left != [] && next < |looks|
        invariant 1 <= next <= |looks|
        invariant Prove(old(op), aborting, looks) ==
                  if aborting && !failed && left != [] && next < |looks| then Prove(op, aborting, looks[next..]) else Proof(op, left, failed)
        decreases |looks| - next
      {
        left, failed := ReleaseMissing(looks[next]);
        next := next + 1;
      }
    }

    /** A user's abort of a run that has not ended. */
    method AbortOperation(saved: bool) returns (accepted: bool)
      modifies this
      ensures accepted <==> old(op).kind.Run? && saved && Busy(old(op).phase)
      ensures op == if accepted then old(op).(phase := Stopping, error := "") else old(op)
      ensures accepted <==> Enabled(State(old(op), Working, []), Abort(saved)) && saved && ValidTransition(old(op).phase, Stopping)
      ensures accepted ==> op == Next(State(old(op), Working, []), Abort(saved)).op
    {
      if !op.kind.Run? || Terminal(op.phase) { return false; }
      accepted := Transition(Stopping, "", saved);
    }

    method AskForRetry(saved: bool) returns (accepted: bool)
      modifies this
      ensures accepted <==> Enabled(State(old(op), Idle, []), AskRetry(saved)) && saved
      ensures accepted ==> State(op, Retrying(old(op)), []) == Next(State(old(op), Idle, []), AskRetry(saved)) && op.phase == Recovering
      ensures !accepted ==> op == old(op)
    {
      if !Terminal(op.phase) { return false; }
      if CleanupResources(op) == [] && !OnlyInventoryProof(op.error) { return false; }
      accepted := Transition(Recovering, "", saved);
    }

    method RetryCleanup(original: Operation, cleanup: seq<Part>, look: Look, releases: seq<Part>, nodes: string, saved: bool) returns (ok: bool)
      requires releases != []
      modifies this
      ensures var proved := Next(State(old(op), Retrying(original), []), Retry(cleanup, look, releases, nodes));
              op == Next(proved, ConcludeRetry(saved)).op && (ok ==> proved.thread.failure == [] && op.phase == RetryTarget(original))
      ensures ok <==> cleanup == [] && LeftOver(old(op), look) == [] && !ReleaseFails(old(op), look)
                      && saved && ValidTransition(old(op).phase, RetryTarget(original))
    {
      var left, failed := ReleaseMissing(look);
      var parts := cleanup + (if failed then releases else []) + (if left != [] then [RemainingOn(|left|, nodes)] else []);
      if parts != [] {
        var _ := Transition(Failed, Message(parts), saved);
        return false;
      }
      var target := if Terminal(original.phase) then original.phase else Failed;
      if target == Failed && OnlyInventoryProof(original.error) { target := Stopped; }
      var error := "";
      if target == Failed {
        error := Strings.TrimSpace(original.error);
        if error == "" { error := "the recipe operation failed before cleanup completed"; }
      }
      ok := Transition(target, error, saved);
    }

    /** Stopping an active managed recipe: the record of what serves changes only after its
        resources are proved gone, and the run's own phase only after that. */
    method StopActive(look: Look, commits: bool, savesStopping: bool, savesStopped: bool) returns (ok: bool, committed: bool)
      requires op.kind.Run? && op.phase.Active?
      modifies this
      ensures committed <==> LeftOver(old(op), look) == [] && !ReleaseFails(old(op), look) && commits
      ensures ok <==> committed && savesStopping && savesStopped
      ensures op.phase != Active ==> committed && Clean(op)
      ensures op.phase == if ok then Stopped else if committed && savesStopping then Stopping else Active
      ensures op.resources == Released(old(op), look).resources
    {
      ProofMeansClean(op, look);
      var left, failed := ReleaseMissing(look);
      if left != [] || failed || !commits { return false, false; }
      ok := Transition(Stopping, "", savesStopping);
      if ok { ok := Transition(Stopped, "", savesStopped); }
      committed := true;
    }
  }
}

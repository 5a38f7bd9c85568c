/** How OpenSSH's client finds the stanza for a name: what it takes for a host in its argument
    (ssh(1)), the patterns of a `Host` line (ssh_config(5)) and the first stanza that matches. */
module SshHosts {
  import opened Strings

  // ---------------------------------------------------------------- the argument

  /** What a host given to ssh must not hold; OpenSSH 9.6 checks this before anything else. */
  predicate Refused(c: char)
  {
    IsSpace(c) || c < ' ' || c == '\U{007F}' || c in "'`\"$\\;&<>|(){}"
  }

  predicate Accepted(s: string)
  {
    forall i :: 0 <= i < |s| ==> !Refused(s[i])
  }

  function Before(s: string, c: char): (r: string)
    ensures c !in r && r <= s
    ensures c !in s ==> r == s
  {
    if s == "" || s[0] == c then "" else [s[0]] + Before(s[1..], c)
  }

  /** What follows the last `c`. */
  function AfterLast(s: string, c: char): (r: string)
    ensures c !in r && (c !in s ==> r == s)
    ensures forall d :: d in r ==> d in s
  {
    if c !in s then s else AfterLast(s[1..], c)
  }

  const SCHEME := "ssh://"

  /** The host in ssh's argument, without the user and the parts of a URI; None when the
      argument is an option, or is refused. */
  function HostIn(argument: string): Option<string>
  {
    if argument == "" || argument[0] == '-' then None
    else
      var host := if SCHEME <= argument then Before(AfterLast(Before(argument[|SCHEME|..], '/'), '@'), ':') else AfterLast(argument, '@');
      if host == "" || host[0] == '-' || !Accepted(host) then None else Some(host)
  }

  // ---------------------------------------------------------------- the Host line

  /** The words of a line, up to its end. */
  function Words(s: string): seq<string>
    decreases |s|
  {
    if s == "" || s[0] == '\n' then []
    else if IsSpace(s[0]) then Words(s[1..])
    else [FirstWord(s)] + Words(s[|FirstWord(s)|..])
  }

  function FirstWord(s: string): (r: string)
    ensures |r| <= |s|
    ensures s != "" && !IsSpace(s[0]) ==> r != ""
  {
    if s == "" || IsSpace(s[0]) then "" else [s[0]] + FirstWord(s[1..])
  }

  /** Between a keyword and what it is about, one equals sign counts as a blank. */
  function WithoutEquals(s: string): (r: string)
    ensures |r| <= |s|
  {
    if s != "" && s[0] == '=' then s[1..] else s
  }

  function Argument(s: string): string
  {
    if s != "" && IsSpace(s[0]) && s[0] != '\n' then Argument(s[1..]) else WithoutEquals(s)
  }

  function BeforeComment(words: seq<string>): seq<string>
  {
    if words == [] || "#" <= words[0] then [] else [words[0]] + BeforeComment(words[1..])
  }

  /** The patterns of the line `Host <alias>`. */
  function Patterns(alias: string): seq<string>
  {
    BeforeComment(Words(Argument(alias)))
  }

  /** `*` stands for any characters, `?` for one. */
  predicate Glob(p: string, s: string)
    decreases |p| + |s|
  {
    if p == "" then s == ""
    else if p[0] == '*' then Glob(p[1..], s) || (s != "" && Glob(p, s[1..]))
    else s != "" && (p[0] == '?' || p[0] == s[0]) && Glob(p[1..], s[1..])
  }

  /** A stanza is for the hosts that a pattern matches and no negated pattern does. */
  predicate Active(patterns: seq<string>, host: string)
  {
    && (exists p :: p in patterns && !("!" <= p) && Glob(p, host))
    && (forall p :: p in patterns && "!" <= p ==> !Glob(p[1..], host))
  }

  predicate IsFor(alias: string, host: string)
  {
    Active(Patterns(alias), host)
  }

  /** The first stanza for a host. Its machine is the one ssh connects to. */
  function FirstActive(aliases: seq<string>, host: string): (r: Option<nat>)
    ensures r.Some? ==> r.value < |aliases| && IsFor(aliases[r.value], host)
    ensures r.Some? ==> forall i :: 0 <= i < r.value ==> !IsFor(aliases[i], host)
    ensures r.None? ==> forall i :: 0 <= i < |aliases| ==> !IsFor(aliases[i], host)
  {
    if aliases == [] then None
    else if IsFor(aliases[0], host) then Some(0)
    else
      var rest := FirstActive(aliases[1..], host);
      assert forall i :: 0 < i < |aliases| ==> aliases[i] == aliases[1..][i - 1];
      if rest.None? then None else Some(rest.value + 1)
  }

  // ---------------------------------------------------------------- matching

  lemma {:induction false} MatchesItself(s: string)
    ensures Glob(s, s)
  {
    if s != "" { MatchesItself(s[1..]); }
  }

  /** A character that stands for itself must be there. */
  lemma {:induction false} MatchHolds(p: string, s: string, c: char)
    requires Glob(p, s) && c in p && c != '*' && c != '?'
    ensures c in s
    decreases |p| + |s|
  {
    if p[0] == '*' {
      if Glob(p[1..], s) { MatchHolds(p[1..], s, c); } else { MatchHolds(p, s[1..], c); }
    } else if p[0] != c {
      MatchHolds(p[1..], s[1..], c);
    }
  }

  predicate Fits(p: string, s: string)
  {
    |p| == |s| && forall i :: 0 <= i < |p| ==> p[i] == '?' || p[i] == s[i]
  }

  lemma {:induction false} WithoutStar(p: string, s: string)
    requires '*' !in p
    ensures Glob(p, s) <==> Fits(p, s)
  {
    if p != "" && s != "" {
      WithoutStar(p[1..], s[1..]);
      assert Fits(p, s) <==> (p[0] == '?' || p[0] == s[0]) && Fits(p[1..], s[1..]) by {
        if (p[0] == '?' || p[0] == s[0]) && Fits(p[1..], s[1..]) {
          forall i | 0 <= i < |p| ensures p[i] == '?' || p[i] == s[i] {
            if i > 0 { assert p[i] == p[1..][i - 1] && s[i] == s[1..][i - 1]; }
          }
        }
      }
    }
  }

  ghost predicate EndsMatch(p: string, tail: string, s: string)
  {
    |s| >= |tail| && Fits(tail, s[|s| - |tail|..]) && Glob(p, s[..|s| - |tail|])
  }

  /** A tail without stars fits the end, and the pattern in front of it matches the rest. */
  lemma {:induction false} MatchSplits(p: string, tail: string, s: string)
    requires '*' !in tail
    ensures Glob(p + tail, s) <==> EndsMatch(p, tail, s)
    decreases |p| + |s|
  {
    if p == "" {
      assert p + tail == tail;
      WithoutStar(tail, s);
      if |s| == |tail| { assert s[0..] == s; }
    } else {
      assert (p + tail)[1..] == p[1..] + tail;
      if s != "" {
        if |s| > |tail| {
          var head := s[..|s| - |tail|];
          assert s[1..][..|s| - 1 - |tail|] == head[1..];
          assert s[1..][|s| - 1 - |tail|..] == s[|s| - |tail|..];
        }
        if p[0] == '*' {
          MatchSplits(p[1..], tail, s);
          MatchSplits(p, tail, s[1..]);
        } else {
          MatchSplits(p[1..], tail, s[1..]);
        }
      } else if p[0] == '*' {
        MatchSplits(p[1..], tail, s);
      }
    }
  }

  lemma {:induction false} StarGoesOn(p: string, s: string, more: string)
    requires Glob(p + "*", s)
    ensures Glob(p + "*", s + more)
    decreases |p| + |s| + |more|
  {
    if p == "" {
      assert p + "*" == "*";
      StarMatchesAll(s + more);
    } else {
      assert (p + "*")[1..] == p[1..] + "*";
      if s != "" { assert (s + more)[1..] == s[1..] + more; }
      if p[0] == '*' {
        if Glob(p[1..] + "*", s) { StarGoesOn(p[1..], s, more); } else { StarGoesOn(p, s[1..], more); }
      } else {
        StarGoesOn(p[1..], s[1..], more);
      }
    }
  }

  lemma {:induction false} StarMatchesAll(s: string)
    ensures Glob("*", s)
  {
    assert "*"[1..] == "";
    if s != "" { StarMatchesAll(s[1..]); }
  }

  /** What follows the last star of a pattern. */
  function Tail(p: string): (r: string)
    ensures '*' !in r && |r| <= |p| && p[|p| - |r|..] == r
    ensures '*' in p ==> |r| < |p| && p[|p| - |r| - 1] == '*'
    ensures '*' !in p ==> r == p
  {
    if '*' !in p then p else if '*' !in p[1..] then (assert p[0] == '*'; p[1..]) else Tail(p[1..])
  }

  /** What follows the last star of a pattern fits the end. */
  predicate EndFits(p: string, s: string)
  {
    var tail := Tail(p);
    '*' in p && |s| >= |tail| && Fits(tail, s[|s| - |tail|..])
  }

  /** A pattern that matches a name matches a longer one exactly when it has a star and what
      follows the last star fits the new end. */
  lemma LongerMatchesExactly(p: string, name: string, more: string)
    requires Glob(p, name) && more != ""
    ensures Glob(p, name + more) <==> EndFits(p, name + more)
  {
    if '*' !in p {
      WithoutStar(p, name);
      WithoutStar(p, name + more);
    } else {
      var tail := Tail(p);
      var head := p[..|p| - |tail| - 1];
      assert p == (head + "*") + tail;
      MatchSplits(head + "*", tail, name);
      MatchSplits(head + "*", tail, name + more);
      LongerEnds(head, tail, name, more);
    }
  }

  lemma LongerEnds(head: string, tail: string, name: string, more: string)
    requires EndsMatch(head + "*", tail, name)
    ensures EndsMatch(head + "*", tail, name + more) <==> Fits(tail, (name + more)[|name + more| - |tail|..])
  {
    FrontGoesOn(head, name, more, |tail|);
  }

  lemma FrontGoesOn(head: string, name: string, more: string, n: nat)
    requires n <= |name| && Glob(head + "*", name[..|name| - n])
    ensures Glob(head + "*", (name + more)[..|name + more| - n])
  {
    var start, front := name[..|name| - n], (name + more)[..|name + more| - n];
    assert front == start + front[|start|..];
    StarGoesOn(head, start, front[|start|..]);
  }

  // ---------------------------------------------------------------- the line of a plain alias

  /** Line breaks in front of a name would make its line end before it. */
  predicate BreaksFirst(s: string)
  {
    s != "" && (s[0] == '\n' || (IsSpace(s[0]) && BreaksFirst(s[1..])))
  }

  predicate Blank(s: string)
  {
    forall i :: 0 <= i < |s| ==> IsSpace(s[i])
  }

  predicate Unspaced(s: string)
  {
    forall i :: 0 <= i < |s| ==> !IsSpace(s[i])
  }

  lemma {:induction false} NoWords(s: string)
    requires Blank(s)
    ensures Words(s) == []
  {
    if s != "" && s[0] != '\n' { NoWords(s[1..]); }
  }

  lemma {:induction false} OneWord(word: string, after: string)
    requires Unspaced(word) && Blank(after)
    ensures FirstWord(word + after) == word
    ensures Words(word + after) == if word == "" then [] else [word]
  {
    var s := word + after;
    NoWords(after);
    if word == "" {
      assert s == after;
    } else {
      assert s[1..] == word[1..] + after;
      OneWord(word[1..], after);
      assert s[0] == word[0] && [s[0]] + word[1..] == word;
      assert s[|word|..] == after;
    }
  }

  /** A name with blanks around it makes one pattern, or none. */
  lemma {:induction false} PatternsOf(before: string, name: string, after: string)
    requires Blank(before) && Blank(after) && Unspaced(name) && name != "" && !BreaksFirst(before + name + after)
    ensures var p := WithoutEquals(name); Patterns(before + name + after) == if p == "" || "#" <= p then [] else [p]
  {
    var s := before + name + after;
    if before != "" {
      assert s[0] == before[0] && s[1..] == before[1..] + name + after;
      PatternsOf(before[1..], name, after);
    } else {
      assert s == name + after && s[0] == name[0] && !IsSpace(name[0]);
      var p := WithoutEquals(name);
      assert Unspaced(p) by { assert forall i :: 0 <= i < |p| ==> p[i] == name[|name| - |p| + i]; }
      assert WithoutEquals(s) == p + after && Argument(s) == p + after;
      OneWord(p, after);
      assert [p][1..] == [] && BeforeComment([]) == [];
      assert Patterns(s) == BeforeComment(Words(p + after));
    }
  }

  /** A name stands between blanks. */
  lemma {:induction false} TrimParts(s: string) returns (i: nat, j: nat)
    ensures i <= j <= |s| && s[i..j] == TrimSpace(s)
    ensures forall k :: 0 <= k < i || j <= k < |s| ==> IsSpace(s[k])
    decreases |s|
  {
    i, j := 0, |s|;
    if s != "" && IsSpace(s[0]) {
      var x, y := TrimParts(s[1..]);
      i, j := x + 1, y + 1;
      ShiftedSlice(s, x, y);
      forall k | 0 <= k < i || j <= k < |s| ensures IsSpace(s[k]) {
        if k > 0 { assert s[k] == s[1..][k - 1]; }
      }
    } else if s != "" && IsSpace(s[|s| - 1]) {
      var n := |s| - 1;
      i, j := TrimParts(s[..n]);
      assert s[i..j] == s[..n][i..j];
      forall k | 0 <= k < i || j <= k < |s| ensures IsSpace(s[k]) {
        if k < n { assert s[k] == s[..n][k]; }
      }
    }
  }

  lemma ShiftedSlice(s: string, x: nat, y: nat)
    requires x <= y < |s|
    ensures s[1..][x..y] == s[x + 1..y + 1]
  {
  }

  lemma {:induction false} TrimmedAt(s: string, i: nat, j: nat)
    requires i <= j <= |s| && (forall k :: 0 <= k < i || j <= k < |s| ==> IsSpace(s[k]))
    requires i < j ==> !IsSpace(s[i]) && !IsSpace(s[j - 1])
    ensures TrimSpace(s) == s[i..j]
    decreases |s|
  {
    if s != "" && IsSpace(s[0]) {
      var x, y := if i > 0 then i - 1 else 0, if j > 0 then j - 1 else 0;
      assert forall k :: 0 <= k < |s| - 1 ==> s[1..][k] == s[k + 1];
      TrimmedAt(s[1..], x, y);
    } else if s != "" && IsSpace(s[|s| - 1]) {
      TrimmedAt(s[..|s| - 1], i, j);
    }
  }

  lemma TrimmedParts(before: string, name: string, after: string)
    requires Blank(before) && Blank(after)
    requires name == "" || (!IsSpace(name[0]) && !IsSpace(name[|name| - 1]))
    ensures TrimSpace(before + name + after) == name
  {
    var s, i, j := before + name + after, |before|, |before| + |name|;
    assert s[i..j] == name;
    forall k | 0 <= k < i || j <= k < |s| ensures IsSpace(s[k]) {
      assert s[k] == if k < i then before[k] else after[k - j];
    }
    if name != "" { assert s[i] == name[0] && s[j - 1] == name[|name| - 1]; }
    TrimmedAt(s, i, j);
  }

  /** An argument that holds no refused character leads to no host that holds a character
      ssh cuts at. */
  lemma HostIsCut(argument: string, c: char)
    ensures HostIn(argument).Some? && (c == '@' || (c == '/' && SCHEME <= argument)) ==> c !in HostIn(argument).value
  {
    if SCHEME <= argument {
      var path := Before(argument[|SCHEME|..], '/');
      var host := AfterLast(path, '@');
      assert Before(host, ':') <= host;
    }
  }
}

/** UTF-8 on bytes, and what writing a string as JSON and reading it back does to it. A char
    stands for a byte. */
module Utf8 {
  import opened Ordering

  predicate Follows(c: char)
  {
    '\U{0080}' <= c <= '\U{00BF}'
  }

  /** How many bytes the first character of `s` takes in UTF-8; 0 when they are none. */
  function RuneLength(s: string): nat
    ensures RuneLength(s) <= |s|
  {
    if s == "" then 0
    else if s[0] < '\U{0080}' then 1
    else if |s| > 1 && '\U{00C2}' <= s[0] <= '\U{00DF}' && Follows(s[1]) then 2
    else if |s| > 2 && Follows(s[1]) && Follows(s[2])
            && (if s[0] == '\U{00E0}' then s[1] >= '\U{00A0}' else if s[0] == '\U{00ED}' then s[1] < '\U{00A0}' else '\U{00E0}' < s[0] <= '\U{00EF}') then 3
    else if |s| > 3 && Follows(s[1]) && Follows(s[2]) && Follows(s[3])
            && (if s[0] == '\U{00F0}' then s[1] >= '\U{0090}' else if s[0] == '\U{00F4}' then s[1] < '\U{0090}' else '\U{00F0}' < s[0] < '\U{00F4}') then 4
    else 0
  }

  predicate IsUtf8(s: string)
    decreases |s|
  {
    s == "" || (RuneLength(s) > 0 && IsUtf8(s[RuneLength(s)..]))
  }

  /** The bytes of U+FFFD. */
  const REPLACEMENT := ['\U{00EF}', '\U{00BF}', '\U{00BD}']

  /** A string written as JSON and read back: bytes that are no character are replaced. */
  function Coerced(s: string): string
    decreases |s|
  {
    if s == "" then ""
    else if RuneLength(s) == 0 then REPLACEMENT + Coerced(s[1..])
    else s[..RuneLength(s)] + Coerced(s[RuneLength(s)..])
  }

  /** So JSON holds exactly the strings that are UTF-8. */
  lemma {:induction false} CoercedExactly(s: string)
    ensures Coerced(s) == s <==> IsUtf8(s)
    decreases |s|
  {
    if s != "" {
      var n := RuneLength(s);
      if n == 0 {
        var rest := Coerced(s[1..]);
        assert Coerced(s)[0] == '\U{00EF}' && Coerced(s)[1] == '\U{00BF}' && Coerced(s)[2] == '\U{00BD}';
      } else {
        CoercedExactly(s[n..]);
        assert s == s[..n] + s[n..];
        assert Coerced(s)[n..] == Coerced(s[n..]);
      }
    }
  }

  // ---------------------------------------------------------------- more of what is read back

  /** A character is read by its own bytes. */
  lemma RuneStands(s: string, more: string)
    requires RuneLength(s) > 0
    ensures RuneLength(s[..RuneLength(s)] + more) == RuneLength(s)
  {
    var n := RuneLength(s);
    var u := s[..n] + more;
    assert forall i :: 0 <= i < n ==> u[i] == s[i];
  }

  /** A slash ends whatever stands before it. */
  lemma SlashEnds(s: string, more: string)
    requires s != ""
    ensures RuneLength(s + "/" + more) == RuneLength(s)
  {
    var u := s + "/" + more;
    assert u[|s|] == '/' && !Follows('/') && forall i :: 0 <= i < |s| ==> u[i] == s[i];
  }

  /** So a path is coerced name by name. */
  lemma {:induction false} CoercedByName(a: string, b: string)
    ensures Coerced(a + "/" + b) == Coerced(a) + "/" + Coerced(b)
    decreases |a|
  {
    var s := a + "/" + b;
    if a == "" {
      assert s[1..] == b && s[..1] == "/";
    } else {
      SlashEnds(a, b);
      var n := RuneLength(a);
      var m := if n == 0 then 1 else n;
      assert s[m..] == a[m..] + "/" + b && s[..m] == a[..m];
      CoercedByName(a[m..], b);
      var rest := Coerced(a[m..]);
      if n == 0 {
        assert Coerced(s) == REPLACEMENT + (rest + "/" + Coerced(b));
      } else {
        assert Coerced(s) == a[..n] + (rest + "/" + Coerced(b));
      }
    }
  }

  /** What was read back is UTF-8. */
  lemma {:induction false} CoercedIsUtf8(s: string)
    ensures IsUtf8(Coerced(s)) && Coerced(Coerced(s)) == Coerced(s)
    decreases |s|
  {
    if s != "" {
      var n := RuneLength(s);
      var rest := Coerced(s[if n == 0 then 1 else n..]);
      CoercedIsUtf8(s[if n == 0 then 1 else n..]);
      var u := Coerced(s);
      if n == 0 {
        assert u[0] == REPLACEMENT[0] && u[1] == REPLACEMENT[1] && u[2] == REPLACEMENT[2];
        assert RuneLength(u) == 3 && u[3..] == rest;
      } else {
        RuneStands(s, rest);
        assert u[n..] == rest;
      }
    }
    CoercedExactly(Coerced(s));
  }

  // Python keeps a byte that is no character as a lone surrogate, U+DC80 to U+DCFF. Its order
  // of strings is that of the bytes below: a surrogate sorts after U+D7FF, before U+E000, and
  // among its kind by its byte.

  function Surrogate(b: char): string
  {
    ['\U{00ED}', '\U{00B2}', b]
  }

  function Escaped(s: string): string
    decreases |s|
  {
    if s == "" then ""
    else if RuneLength(s) == 0 then Surrogate(s[0]) + Escaped(s[1..])
    else s[..RuneLength(s)] + Escaped(s[RuneLength(s)..])
  }

  lemma {:induction false} LessBehind(front: string, a: string, b: string)
    ensures Less(front + a, front + b) <==> Less(a, b)
  {
    if front == "" {
      assert front + a == a && front + b == b;
    } else {
      assert (front + a)[1..] == front[1..] + a && (front + b)[1..] == front[1..] + b;
      LessBehind(front[1..], a, b);
    }
  }

  lemma {:induction false} LessInFront(a: string, b: string, x: string, y: string)
    requires |a| == |b| && Less(a, b)
    ensures Less(a + x, b + y)
  {
    assert (a + x)[1..] == a[1..] + x && (b + y)[1..] == b[1..] + y;
    if a[0] == b[0] { LessInFront(a[1..], b[1..], x, y); }
  }

  /** A name that is not UTF-8 sorts before the name it is read as. */
  lemma {:induction false} EscapedSortsBefore(s: string)
    ensures |Escaped(s)| == |Coerced(s)|
    ensures IsUtf8(s) ==> Escaped(s) == s
    ensures !IsUtf8(s) ==> Less(Escaped(s), Coerced(s))
    decreases |s|
  {
    if s != "" {
      var n := RuneLength(s);
      EscapedSortsBefore(s[if n == 0 then 1 else n..]);
      if n == 0 {
        assert Escaped(s)[0] == '\U{00ED}' && Coerced(s)[0] == '\U{00EF}';
      } else {
        LessBehind(s[..n], Escaped(s[n..]), Coerced(s[n..]));
        assert s == s[..n] + s[n..];
      }
    }
  }

  /** Python tells any two names apart. */
  lemma {:induction false} EscapedDiffer(s: string, t: string)
    requires Escaped(s) == Escaped(t)
    ensures s == t
    decreases |s|
  {
    if s != "" && t != "" {
      RuneOfEscaped(s);
      RuneOfEscaped(t);
      var n := RuneLength(s);
      var m := if n == 0 then 1 else n;
      var u := Escaped(s);
      if n == 0 {
        assert u[2] == s[0] && u[2] == t[0];
        assert u[3..] == Escaped(s[1..]) && u[3..] == Escaped(t[1..]);
      } else {
        assert u[n..] == Escaped(s[n..]) && u[n..] == Escaped(t[n..]);
        assert u[..n] == s[..n] && u[..n] == t[..n];
      }
      EscapedDiffer(s[m..], t[m..]);
      assert s == s[..m] + s[m..] && t == t[..m] + t[m..] && s[..m] == t[..m];
    }
  }

  lemma RuneOfEscaped(s: string)
    requires s != ""
    ensures Escaped(s) != "" && RuneLength(Escaped(s)) == RuneLength(s)
  {
    var n, u := RuneLength(s), Escaped(s);
    if n == 0 {
      assert u[0] == '\U{00ED}' && u[1] == '\U{00B2}';
    } else {
      RuneStands(s, Escaped(s[n..]));
    }
  }
}

/** Rewriting the served model name in a streamed response, line by line, and what that
    has to do with rewriting the response as a whole. A char stands for a byte. */
module AliasStream {
  import Utf8

  datatype Option<T> = None | Some(value: T)

  const NEWLINE := '\n'

  /** Replaces the occurrences of `pattern`, leftmost first, without overlap. */
  function ReplaceAll(s: string, pattern: string, put: string): string
    requires pattern != ""
    decreases |s|
  {
    if |s| < |pattern| then s
    else if pattern <= s then put + ReplaceAll(s[|pattern|..], pattern, put)
    else [s[0]] + ReplaceAll(s[1..], pattern, put)
  }

  predicate Occurs(s: string, k: nat, pattern: string)
  {
    k <= |s| && pattern <= s[k..]
  }

  predicate Free(s: string, pattern: string)
  {
    forall k :: 0 <= k <= |s| ==> !Occurs(s, k, pattern)
  }

  /** The first occurrence of `pattern` in `s + pattern` is the one at the end. */
  predicate FirstAtEnd(s: string, pattern: string)
  {
    forall k :: 0 <= k < |s| ==> !Occurs(s + pattern, k, pattern)
  }

  function Join(pieces: seq<string>, put: string): string
    requires |pieces| > 0
  {
    if |pieces| == 1 then pieces[0] else pieces[0] + put + Join(pieces[1..], put)
  }

  ghost predicate Splits(pieces: seq<string>, pattern: string)
  {
    && |pieces| > 0
    && (forall i :: 0 <= i < |pieces| - 1 ==> FirstAtEnd(pieces[i], pattern))
    && Free(pieces[|pieces| - 1], pattern)
  }

  /** Replacing takes the text apart at the pattern's successive first occurrences, and puts
      the pieces together again around the replacement. */
  lemma {:induction false} ReplaceAllJoins(s: string, pattern: string, put: string) returns (pieces: seq<string>)
    requires pattern != ""
    ensures Splits(pieces, pattern) && Join(pieces, pattern) == s && Join(pieces, put) == ReplaceAll(s, pattern, put)
    decreases |s|
  {
    if |s| < |pattern| {
      pieces := [s];
    } else if pattern <= s {
      var rest := ReplaceAllJoins(s[|pattern|..], pattern, put);
      pieces := [""] + rest;
      MatchInFront(rest, pattern, pattern);
      MatchInFront(rest, pattern, put);
      assert s == pattern + s[|pattern|..];
    } else {
      var rest := ReplaceAllJoins(s[1..], pattern, put);
      pieces := [[s[0]] + rest[0]] + rest[1..];
      assert pieces[1..] == rest[1..];
      assert s == [s[0]] + s[1..];
      JoinGrows(s[0], rest, pattern);
      JoinGrows(s[0], rest, put);
      SplitsGrows(s[0], rest, pattern);
    }
  }

  lemma MatchInFront(rest: seq<string>, pattern: string, put: string)
    requires Splits(rest, pattern)
    ensures Splits([""] + rest, pattern) && Join([""] + rest, put) == put + Join(rest, put)
  {
    var pieces := [""] + rest;
    assert pieces[1..] == rest;
    assert "" + put + Join(rest, put) == put + Join(rest, put);
    assert pieces[|pieces| - 1] == rest[|rest| - 1];
    assert forall i :: 0 < i < |pieces| - 1 ==> pieces[i] == rest[i - 1];
  }

  lemma OneMoreInFront(c: char, s: string, pattern: string)
    requires pattern != ""
    ensures Free(s, pattern) && !(pattern <= [c] + s) ==> Free([c] + s, pattern)
    ensures FirstAtEnd(s, pattern) && !(pattern <= [c] + s + pattern) ==> FirstAtEnd([c] + s, pattern)
  {
    forall k: nat | 0 < k <= |s| + 1 ensures Occurs([c] + s, k, pattern) <==> Occurs(s, k - 1, pattern) {
      assert ([c] + s)[k..] == s[k - 1..];
    }
    forall k: nat | 0 < k <= |s| ensures Occurs([c] + s + pattern, k, pattern) <==> Occurs(s + pattern, k - 1, pattern) {
      assert ([c] + s + pattern)[k..] == (s + pattern)[k - 1..];
    }
  }

  lemma JoinGrows(c: char, rest: seq<string>, put: string)
    requires |rest| > 0
    ensures Join([[c] + rest[0]] + rest[1..], put) == [c] + Join(rest, put)
    ensures |rest| > 1 ==> rest[0] + put <= Join(rest, put)
  {
    var pieces := [[c] + rest[0]] + rest[1..];
    assert pieces[1..] == rest[1..];
    if |rest| > 1 {
      assert Join(pieces, put) == [c] + (rest[0] + put + Join(rest[1..], put));
    }
  }

  lemma SplitsGrows(c: char, rest: seq<string>, pattern: string)
    requires pattern != "" && Splits(rest, pattern) && !(pattern <= [c] + Join(rest, pattern))
    ensures Splits([[c] + rest[0]] + rest[1..], pattern)
  {
    var first := [c] + rest[0];
    var pieces := [first] + rest[1..];
    OneMoreInFront(c, rest[0], pattern);
    if |rest| > 1 {
      JoinGrows(c, rest, pattern);
      assert first + pattern <= [c] + Join(rest, pattern);
      assert FirstAtEnd(first, pattern);
      assert pieces[|pieces| - 1] == rest[|rest| - 1];
      forall i | 0 <= i < |pieces| - 1 ensures FirstAtEnd(pieces[i], pattern) {
        assert i > 0 ==> pieces[i] == rest[i];
      }
    }
  }

  /** What the response must not contain for lines to be independent. */
  predicate OneLine(s: string)
  {
    NEWLINE !in s
  }

  predicate EndsLine(s: string)
  {
    s != "" && s[|s| - 1] == NEWLINE
  }

  lemma {:induction false} ReplaceKeepsEndOfLine(s: string, pattern: string, put: string)
    requires pattern != "" && OneLine(pattern) && EndsLine(s)
    ensures EndsLine(ReplaceAll(s, pattern, put))
    decreases |s|
  {
    if |s| >= |pattern| {
      if pattern <= s {
        NoMatchAtEnd(s, "", pattern);
        ReplaceKeepsEndOfLine(s[|pattern|..], pattern, put);
      } else if |s| > 1 {
        ReplaceKeepsEndOfLine(s[1..], pattern, put);
      }
    }
  }

  /** A match that starts in a line ends before the end of the line. */
  lemma NoMatchAtEnd(line: string, rest: string, pattern: string)
    requires pattern != "" && OneLine(pattern) && EndsLine(line) && pattern <= line + rest
    ensures |pattern| < |line| && pattern <= line
  {
    var whole := line + rest;
    assert whole[|line| - 1] == NEWLINE;
    assert forall k :: 0 <= k < |pattern| ==> whole[k] == pattern[k] != NEWLINE;
    assert (line + rest)[..|pattern|] == line[..|pattern|];
  }

  lemma {:induction false} ReplaceByLine(line: string, rest: string, pattern: string, put: string)
    requires pattern != "" && OneLine(pattern) && EndsLine(line)
    ensures ReplaceAll(line + rest, pattern, put) == ReplaceAll(line, pattern, put) + ReplaceAll(rest, pattern, put)
    decreases |line|
  {
    var whole := line + rest;
    if |whole| >= |pattern| && pattern <= whole {
      NoMatchAtEnd(line, rest, pattern);
      assert whole[|pattern|..] == line[|pattern|..] + rest;
      ReplaceByLine(line[|pattern|..], rest, pattern, put);
    } else {
      assert whole[1..] == line[1..] + rest;
      if |line| > 1 {
        ReplaceByLine(line[1..], rest, pattern, put);
      } else {
        assert line[1..] + rest == rest;
      }
      ShortLine(line, pattern, put);
      if |whole| < |pattern| { ShortLine(rest, pattern, put); }
    }
  }

  lemma ShortLine(s: string, pattern: string, put: string)
    requires pattern != ""
    ensures s != "" && !(pattern <= s) ==> ReplaceAll(s, pattern, put) == [s[0]] + ReplaceAll(s[1..], pattern, put)
    ensures |s| < |pattern| ==> ReplaceAll(s, pattern, put) == s
  {
  }

  lemma {:induction false} ReplaceIsNonEmpty(s: string, pattern: string, put: string)
    requires pattern != "" && put != "" && s != ""
    ensures ReplaceAll(s, pattern, put) != ""
  {
  }

  function Hex(d: nat): char
    requires d < 16
  {
    if d < 10 then '0' + d as char else 'a' + (d - 10) as char
  }

  /** One ASCII character of a JSON string as the encoder writes it. */
  function Escaped(c: char): string
  {
    if c == '"' then "\\\""
    else if c == '\\' then "\\\\"
    else if c == '\U{0008}' then "\\b"
    else if c == '\U{000C}' then "\\f"
    else if c == '\n' then "\\n"
    else if c == '\r' then "\\r"
    else if c == '\t' then "\\t"
    else if c < ' ' || c == '<' || c == '>' || c == '&' then
      var n := c as int;
      "\\u00" + [Hex(n / 16), Hex(n % 16)]
    else [c]
  }

  /** The bytes of U+2028 and U+2029, which end a line in JavaScript. */
  const SEPARATORS := ['\U{00E2}', '\U{0080}']

  /** The separators are escaped too, and bytes that are no character replaced. */
  function EscapedAll(s: string): string
    decreases |s|
  {
    if s == "" then ""
    else
      var n := Utf8.RuneLength(s);
      if n == 0 then "\\ufffd" + EscapedAll(s[1..])
      else if n == 1 then Escaped(s[0]) + EscapedAll(s[1..])
      else if n == 3 && SEPARATORS <= s && s[2] == '\U{00A8}' then "\\u2028" + EscapedAll(s[3..])
      else if n == 3 && SEPARATORS <= s && s[2] == '\U{00A9}' then "\\u2029" + EscapedAll(s[3..])
      else s[..n] + EscapedAll(s[n..])
  }

  function Marshal(alias: string): string
  {
    "\"" + EscapedAll(alias) + "\""
  }

  lemma {:induction false} EscapedIsOneLine(s: string)
    ensures OneLine(EscapedAll(s))
    decreases |s|
  {
    if s != "" {
      var n := Utf8.RuneLength(s);
      EscapedIsOneLine(s[if n == 0 then 1 else n..]);
      assert OneLine("\\ufffd") && OneLine("\\u2028") && OneLine("\\u2029");
      assert n == 1 ==> OneLine(Escaped(s[0]));
      assert n > 1 ==> OneLine(s[..n]);
    }
  }

  // How a client reads the alias back.

  function HexValue(c: char): (d: nat)
    ensures d < 16
  {
    if '0' <= c <= '9' then (c - '0') as nat else if 'a' <= c <= 'f' then (c - 'a') as nat + 10
    else if 'A' <= c <= 'F' then (c - 'A') as nat + 10 else 0
  }

  predicate IsHex(c: char)
  {
    '0' <= c <= '9' || 'a' <= c <= 'f' || 'A' <= c <= 'F'
  }

  /** The code point of four hexadecimal digits. */
  function CodePoint(code: string): (u: nat)
    requires |code| == 4
    ensures u < 0x10000
  {
    4096 * HexValue(code[0]) + 256 * HexValue(code[1]) + 16 * HexValue(code[2]) + HexValue(code[3])
  }

  /** The bytes of a code point in UTF-8. */
  function Utf8Of(u: nat): string
    requires u < 0x10000
  {
    if u < 0x80 then [u as char]
    else if u < 0x800 then [(0xC0 + u / 64) as char, (0x80 + u % 64) as char]
    else [(0xE0 + u / 4096) as char, (0x80 + u / 64 % 64) as char, (0x80 + u % 64) as char]
  }

  /** What a backslash and this character stand for. */
  function Unescaped(c: char): Option<char>
  {
    match c
    case '"' => Some('"')
    case '\\' => Some('\\')
    case '/' => Some('/')
    case 'b' => Some('\U{0008}')
    case 'f' => Some('\U{000C}')
    case 'n' => Some('\n')
    case 'r' => Some('\r')
    case 't' => Some('\t')
    case _ => None
  }

  /** A string that was read, and what stands behind it. */
  datatype Reading = Reading(value: string, rest: string)

  function InFront(front: string, r: Option<Reading>): Option<Reading>
  {
    if r.None? then None else Some(Reading(front + r.value.value, r.value.rest))
  }

  /** Reads a JSON string from behind its opening quote, by section 7 of RFC 8259; characters
      beyond U+FFFF are read only as their bytes. */
  function ReadString(s: string): Option<Reading>
    decreases |s|
  {
    if s == "" || s[0] < ' ' then None
    else if s[0] == '"' then Some(Reading("", s[1..]))
    else if s[0] != '\\' then InFront([s[0]], ReadString(s[1..]))
    else if |s| > 1 && Unescaped(s[1]).Some? then InFront([Unescaped(s[1]).value], ReadString(s[2..]))
    else if |s| > 5 && s[1] == 'u' && IsHex(s[2]) && IsHex(s[3]) && IsHex(s[4]) && IsHex(s[5]) then
      InFront(Utf8Of(CodePoint(s[2..6])), ReadString(s[6..]))
    else None
  }

  predicate Ordinary(c: char)
  {
    c >= ' ' && c != '"' && c != '\\'
  }

  lemma {:induction false} OrdinaryIsRead(s: string, more: string)
    requires forall i :: 0 <= i < |s| ==> Ordinary(s[i])
    ensures ReadString(s + more) == InFront(s, ReadString(more))
  {
    if s == "" {
      assert s + more == more;
      if r :| ReadString(more) == Some(r) { assert "" + r.value == r.value; }
    } else {
      assert (s + more)[1..] == s[1..] + more;
      OrdinaryIsRead(s[1..], more);
      FrontsJoin([s[0]], s[1..], ReadString(more));
      assert s == [s[0]] + s[1..];
    }
  }

  lemma FrontsJoin(a: string, b: string, r: Option<Reading>)
    ensures InFront(a, InFront(b, r)) == InFront(a + b, r)
  {
    if r.Some? { assert a + (b + r.value.value) == (a + b) + r.value.value; }
  }

  lemma HexIsRead(d: nat)
    requires d < 16
    ensures IsHex(Hex(d)) && HexValue(Hex(d)) == d
  {
  }

  lemma CodeIsRead(code: string, u: nat, more: string)
    requires |code| == 4 && u < 0x10000 && (forall i :: 0 <= i < 4 ==> IsHex(code[i]))
    requires u == CodePoint(code)
    ensures ReadString("\\u" + code + more) == InFront(Utf8Of(u), ReadString(more))
  {
    var s := "\\u" + code + more;
    assert s[6..] == more && s[0] == '\\' && s[1] == 'u';
    assert s[2..6] == code && s[2] == code[0] && s[3] == code[1] && s[4] == code[2] && s[5] == code[3];
  }

  lemma ShortIsRead(c: char, value: char, more: string)
    requires Unescaped(c) == Some(value)
    ensures ReadString(['\\', c] + more) == InFront([value], ReadString(more))
  {
    assert (['\\', c] + more)[2..] == more;
  }

  lemma ControlIsRead(c: char, more: string)
    requires c < '\U{0080}'
    ensures ReadString("\\u00" + [Hex(c as int / 16), Hex(c as int % 16)] + more) == InFront([c], ReadString(more))
  {
    var n := c as int;
    var code := ['0', '0', Hex(n / 16), Hex(n % 16)];
    HexIsRead(n / 16);
    HexIsRead(n % 16);
    CodeIsRead(code, n, more);
    assert "\\u" + code == "\\u00" + [Hex(n / 16), Hex(n % 16)];
  }

  /** One character is read as it was before it was escaped. */
  lemma EscapedIsRead(c: char, more: string)
    requires c < '\U{0080}'
    ensures ReadString(Escaped(c) + more) == InFront([c], ReadString(more))
  {
    if c == '"' { ShortIsRead('"', c, more); }
    else if c == '\\' { ShortIsRead('\\', c, more); }
    else if c == '\U{0008}' { ShortIsRead('b', c, more); }
    else if c == '\U{000C}' { ShortIsRead('f', c, more); }
    else if c == '\n' { ShortIsRead('n', c, more); }
    else if c == '\r' { ShortIsRead('r', c, more); }
    else if c == '\t' { ShortIsRead('t', c, more); }
    else if c < ' ' || c == '<' || c == '>' || c == '&' { ControlIsRead(c, more); }
    else { OrdinaryIsRead([c], more); }
  }

  lemma RuneIsOrdinary(s: string)
    requires Utf8.RuneLength(s) > 1
    ensures forall i :: 0 <= i < Utf8.RuneLength(s) ==> Ordinary(s[i])
  {
  }

  /** The next character of a string, escaped, is read as JSON keeps it. */
  lemma StepIsRead(s: string, more: string)
    requires s != ""
    ensures var n := Utf8.RuneLength(s);
            var front := if n == 0 then "\\ufffd" else if n == 1 then Escaped(s[0])
                         else if n == 3 && SEPARATORS <= s && s[2] == '\U{00A8}' then "\\u2028"
                         else if n == 3 && SEPARATORS <= s && s[2] == '\U{00A9}' then "\\u2029" else s[..n];
            ReadString(front + more) == InFront(if n == 0 then Utf8.REPLACEMENT else s[..n], ReadString(more))
  {
    var n := Utf8.RuneLength(s);
    if n == 0 {
      ReplacedIsRead(more);
    } else if n == 1 {
      EscapedIsRead(s[0], more);
      assert s[..1] == [s[0]];
    } else if n == 3 && SEPARATORS <= s && s[2] in {'\U{00A8}', '\U{00A9}'} {
      SeparatorIsRead(s, more);
    } else {
      RuneIsOrdinary(s);
      OrdinaryIsRead(s[..n], more);
    }
  }

  lemma ReplacedIsRead(more: string)
    ensures ReadString("\\ufffd" + more) == InFront(Utf8.REPLACEMENT, ReadString(more))
  {
    CodeIsRead("fffd", 0xFFFD, more);
    assert "\\u" + "fffd" == "\\ufffd";
    assert Utf8Of(0xFFFD) == Utf8.REPLACEMENT;
  }

  lemma SeparatorIsRead(s: string, more: string)
    requires |s| > 2 && SEPARATORS <= s && s[2] in {'\U{00A8}', '\U{00A9}'}
    ensures ReadString((if s[2] == '\U{00A8}' then "\\u2028" else "\\u2029") + more) == InFront(s[..3], ReadString(more))
  {
    if s[2] == '\U{00A8}' {
      CodeIsRead("2028", 0x2028, more);
      assert "\\u" + "2028" == "\\u2028";
      assert Utf8Of(0x2028) == s[..3];
    } else {
      CodeIsRead("2029", 0x2029, more);
      assert "\\u" + "2029" == "\\u2029";
      assert Utf8Of(0x2029) == s[..3];
    }
  }

  /** The alias is written as a JSON string that reads back as the alias, as far as that is
      UTF-8, whatever follows. */
  lemma {:induction false} AliasReadsBack(alias: string, rest: string)
    ensures ReadString(EscapedAll(alias) + "\"" + rest) == Some(Reading(Utf8.Coerced(alias), rest))
    decreases |alias|
  {
    if alias == "" {
      assert EscapedAll(alias) + "\"" + rest == "\"" + rest;
    } else {
      var n := Utf8.RuneLength(alias);
      var later := alias[if n == 0 then 1 else n..];
      var more := EscapedAll(later) + "\"" + rest;
      AliasReadsBack(later, rest);
      StepIsRead(alias, more);
      var front := if n == 0 then "\\ufffd" else if n == 1 then Escaped(alias[0])
                   else if n == 3 && SEPARATORS <= alias && alias[2] == '\U{00A8}' then "\\u2028"
                   else if n == 3 && SEPARATORS <= alias && alias[2] == '\U{00A9}' then "\\u2029" else alias[..n];
      assert EscapedAll(alias) == front + EscapedAll(later);
      assert EscapedAll(alias) + "\"" + rest == front + more;
    }
  }

  const MODEL := "\"model\":"
  const ID := "\"id\":"
  const SERVED := "\"cloudless\""

  /** The rewrite of a whole text: first the model fields, then the identifiers. */
  function Rewrite(text: string, alias: string): string
  {
    ReplaceAll(ReplaceAll(text, MODEL + SERVED, MODEL + Marshal(alias)), ID + SERVED, ID + Marshal(alias))
  }

  lemma {:induction false} ReplaceNone(s: string, pattern: string, put: string)
    requires pattern != "" && Free(s, pattern)
    ensures ReplaceAll(s, pattern, put) == s
    decreases |s|
  {
    if |s| >= |pattern| {
      assert s[0..] == s && !Occurs(s, 0, pattern);
      forall k: nat | k <= |s[1..]| ensures !Occurs(s[1..], k, pattern) {
        assert s[1..][k..] == s[k + 1..];
        assert !Occurs(s, k + 1, pattern);
      }
      ReplaceNone(s[1..], pattern, put);
    }
  }

  lemma {:induction false} ReplaceOne(before: string, after: string, pattern: string, put: string)
    requires pattern != "" && FirstAtEnd(before, pattern) && Free(after, pattern)
    ensures ReplaceAll(before + pattern + after, pattern, put) == before + put + after
  {
    var s := before + pattern + after;
    if before == "" {
      assert s == pattern + after && s[|pattern|..] == after;
      ReplaceNone(after, pattern, put);
    } else {
      var rest := before[1..];
      assert s[1..] == rest + pattern + after;
      assert !Occurs(before + pattern, 0, pattern) && (before + pattern)[0..] == before + pattern;
      assert s[..|pattern|] == (before + pattern)[..|pattern|];
      forall k: nat | k < |rest| ensures !Occurs(rest + pattern, k, pattern) {
        assert (rest + pattern)[k..] == (before + pattern)[k + 1..];
        assert !Occurs(before + pattern, k + 1, pattern);
      }
      ReplaceOne(rest, after, pattern, put);
      assert [s[0]] + (rest + put + after) == before + put + after;
    }
  }

  /** The served name in a model field is replaced by the alias, and nothing else is. */
  lemma ModelIsRewritten(before: string, after: string, alias: string)
    requires FirstAtEnd(before, "\"model\":\"cloudless\"") && Free(after, "\"model\":\"cloudless\"")
    requires Free(before + "\"model\":" + Marshal(alias) + after, "\"id\":\"cloudless\"")
    ensures Rewrite(before + "\"model\":\"cloudless\"" + after, alias) == before + "\"model\":" + Marshal(alias) + after
  {
    assert MODEL + SERVED == "\"model\":\"cloudless\"" && ID + SERVED == "\"id\":\"cloudless\"";
    ReplaceOne(before, after, MODEL + SERVED, MODEL + Marshal(alias));
    assert before + (MODEL + Marshal(alias)) + after == before + MODEL + Marshal(alias) + after;
    ReplaceNone(before + MODEL + Marshal(alias) + after, ID + SERVED, ID + Marshal(alias));
  }

  /** And so in an identifier. */
  lemma IdIsRewritten(before: string, after: string, alias: string)
    requires FirstAtEnd(before, "\"id\":\"cloudless\"") && Free(after, "\"id\":\"cloudless\"")
    requires Free(before + "\"id\":\"cloudless\"" + after, "\"model\":\"cloudless\"")
    ensures Rewrite(before + "\"id\":\"cloudless\"" + after, alias) == before + "\"id\":" + Marshal(alias) + after
  {
    assert MODEL + SERVED == "\"model\":\"cloudless\"" && ID + SERVED == "\"id\":\"cloudless\"";
    ReplaceNone(before + (ID + SERVED) + after, MODEL + SERVED, MODEL + Marshal(alias));
    ReplaceOne(before, after, ID + SERVED, ID + Marshal(alias));
    assert before + (ID + Marshal(alias)) + after == before + ID + Marshal(alias) + after;
  }

  /** A line can be rewritten without what follows it. */
  lemma RewriteByLine(line: string, rest: string, alias: string)
    requires EndsLine(line)
    ensures Rewrite(line + rest, alias) == Rewrite(line, alias) + Rewrite(rest, alias)
  {
    ReplaceByLine(line, rest, MODEL + SERVED, MODEL + Marshal(alias));
    ReplaceKeepsEndOfLine(line, MODEL + SERVED, MODEL + Marshal(alias));
    ReplaceByLine(ReplaceAll(line, MODEL + SERVED, MODEL + Marshal(alias)),
                  ReplaceAll(rest, MODEL + SERVED, MODEL + Marshal(alias)), ID + SERVED, ID + Marshal(alias));
  }

  lemma RewriteIsNonEmpty(line: string, alias: string)
    ensures line != "" ==> Rewrite(line, alias) != ""
    ensures Rewrite("", alias) == ""
  {
    if line != "" {
      ReplaceIsNonEmpty(line, MODEL + SERVED, MODEL + Marshal(alias));
      ReplaceIsNonEmpty(ReplaceAll(line, MODEL + SERVED, MODEL + Marshal(alias)), ID + SERVED, ID + Marshal(alias));
    }
  }

  /** The next line with its newline, or all that is left. */
  function Line(text: string): string
  {
    if text == "" then "" else if text[0] == NEWLINE then [NEWLINE] else [text[0]] + Line(text[1..])
  }

  lemma {:induction false} LineStarts(text: string)
    ensures Line(text) <= text && (text != "" ==> Line(text) != "")
    ensures EndsLine(Line(text)) || Line(text) == text
  {
    if text != "" && text[0] != NEWLINE {
      LineStarts(text[1..]);
      assert text == [text[0]] + text[1..];
    }
  }

  /** One line's rewrite, then the rest's, make the whole. */
  lemma TakeLine(text: string, alias: string)
    ensures Line(text) <= text
    ensures Rewrite(text, alias) == Rewrite(Line(text), alias) + Rewrite(text[|Line(text)|..], alias)
    ensures text != "" ==> Line(text) != "" && Rewrite(Line(text), alias) != ""
  {
    LineStarts(text);
    var line, rest := Line(text), text[|Line(text)|..];
    assert text == line + rest;
    RewriteIsNonEmpty(line, alias);
    if EndsLine(line) {
      RewriteByLine(line, rest, alias);
    } else {
      assert rest == "";
      RewriteIsNonEmpty(rest, alias);
    }
  }

  /** What is delivered, a line's rewrite and the rest's still make the whole. */
  lemma LineDelivered(body: string, alias: string, delivered: string, remaining: string)
    requires Rewrite(body, alias) == delivered + "" + Rewrite(remaining, alias) && remaining != ""
    ensures 0 < |Line(remaining)| <= |remaining|
    ensures Rewrite(body, alias) == delivered + Rewrite(Line(remaining), alias) + Rewrite(remaining[|Line(remaining)|..], alias)
  {
    TakeLine(remaining, alias);
    JoinedAgain(delivered, Rewrite(Line(remaining), alias), Rewrite(remaining[|Line(remaining)|..], alias));
  }

  lemma JoinedAgain(a: string, b: string, c: string)
    ensures a + "" + (b + c) == a + b + c
  {
  }

  method Copy(dst: array<char>, from: string) returns (n: nat)
    modifies dst
    ensures n == if dst.Length < |from| then dst.Length else |from|
    ensures dst[..n] == from[..n] && dst[n..] == old(dst[n..])
  {
    n := if dst.Length < |from| then dst.Length else |from|;
    for i := 0 to n
      invariant dst[..i] == from[..i] && dst[i..] == old(dst[i..])
    {
      dst[i] := from[i];
    }
  }

  class AliasBody {
    const body: string
    const alias: string
    /** How the source ends. */
    const end: string
    var remaining: string
    var pending: string
    /** What callers were given so far. */
    ghost var delivered: string

    ghost predicate Valid()
      reads this
    {
      Rewrite(body, alias) == delivered + pending + Rewrite(remaining, alias)
    }

    constructor (body: string, end: string, alias: string)
      ensures Valid() && delivered == "" && this.body == body && this.alias == alias && this.end == end
    {
      this.body, this.alias, this.end := body, alias, end;
      remaining, pending, delivered := body, "", "";
    }

    method Read(dst: array<char>) returns (n: nat, error: Option<string>)
      requires Valid()
      modifies this, dst
      ensures Valid() && n <= dst.Length
      ensures delivered == old(delivered) + dst[..n] && dst[n..] == old(dst[n..])
      ensures error.Some? <==> old(delivered) == Rewrite(body, alias)
      ensures error.Some? ==> error.value == end && n == 0
      ensures error.None? && dst.Length > 0 ==> n > 0
    {
      Fill();
      if pending == "" {
        RewriteIsNonEmpty("", alias);
        return 0, Some(end);
      }
      n := Copy(dst, pending);
      delivered := delivered + pending[..n];
      pending := pending[n..];
      error := None;
    }

    /** Takes lines until there is something to deliver, or no line is left. */
    method Fill()
      requires Valid()
      modifies this`remaining, this`pending
      ensures Valid() && (pending == "" ==> remaining == "")
      ensures old(pending) != "" ==> pending == old(pending)
    {
      while pending == "" && remaining != ""
        invariant Valid() && (old(pending) != "" ==> pending == old(pending))
        decreases |remaining|, |pending|
      {
        var line := Line(remaining);
        LineDelivered(body, alias, delivered, remaining);
        remaining := remaining[|line|..];
        pending := Rewrite(line, alias);
      }
    }

    /** Reads into buffers of the given sizes, one after the other. What comes before the
        end is the rewrite of the whole body, and the end comes. */
    method ReadAll(sizes: seq<nat>) returns (text: string, ended: bool)
      requires Valid() && delivered == ""
      modifies this
      ensures Valid() && text == delivered && text <= Rewrite(body, alias)
      ensures ended ==> text == Rewrite(body, alias)
      ensures (forall k :: 0 <= k < |sizes| ==> sizes[k] > 0) && |sizes| > |Rewrite(body, alias)| ==> ended
    {
      text := "";
      for i := 0 to |sizes|
        invariant Valid() && text == delivered
        invariant (forall k :: 0 <= k < |sizes| ==> sizes[k] > 0) ==> |delivered| >= i
      {
        var dst := new char[sizes[i]];
        var n, error := Read(dst);
        if error.Some? { return text, true; }
        text := text + dst[..n];
      }
      ended := false;
    }
  }

  const CAPTURED: nat := 262144

  function Tail(s: string): string
  {
    if |s| <= CAPTURED then s else s[|s| - CAPTURED..]
  }

  /** Remembers the end of a response, where the usage is. */
  class Capture {
    var capture: string
    ghost var written: string

    constructor ()
      ensures written == "" && capture == Tail(written)
    {
      capture, written := "", "";
    }

    method Write(b: string)
      requires capture == Tail(written)
      modifies this
      ensures written == old(written) + b && capture == Tail(written)
    {
      if |b| >= CAPTURED {
        capture := b[|b| - CAPTURED..];
      } else {
        var over := |capture| + |b| - CAPTURED;
        if over > 0 { capture := capture[over..]; }
        capture := capture + b;
      }
      written := written + b;
    }
  }
}

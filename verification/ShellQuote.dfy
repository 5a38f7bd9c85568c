/** Commands for a worker travel as one string that its login shell takes apart. Splitting
    follows sections 2.2.2 (single-quotes), 2.2.3 (double-quotes) and 2.3 (token recognition)
    of the Shell Command Language in IEEE Std 1003.1-2017. */
module ShellQuote {
  import AliasStream

  datatype Option<T> = None | Some(value: T)

  const QUOTE := "'"
  /** Ends the quotes, adds a quote in double quotes, and opens them again. */
  const ESCAPED := "'\"'\"'"

  function Escape(value: string): string
  {
    AliasStream.ReplaceAll(value, QUOTE, ESCAPED)
  }

  function Quote(value: string): string
  {
    QUOTE + Escape(value) + QUOTE
  }

  function QuoteAll(argv: seq<string>): (quoted: seq<string>)
    ensures |quoted| == |argv|
  {
    if argv == [] then [] else [Quote(argv[0])] + QuoteAll(argv[1..])
  }

  /** What is sent for an argument vector. */
  function Command(argv: seq<string>): string
  {
    if argv == [] then "" else AliasStream.Join(QuoteAll(argv), " ")
  }

  datatype Mode = Unquoted | Single | Double

  /** Characters that unquoted mean something to the shell other than themselves. */
  predicate Special(c: char)
  {
    c in "|&;<>()$`*?[#~=%!{}\n"
  }

  function Extended(word: Option<string>, c: char): Option<string>
  {
    Some((if word.Some? then word.value else "") + [c])
  }

  /** The words of `s`, read from the given mode, with the word begun so far and those before
      it; None when `s` is no list of plain words. */
  function Split(s: string, mode: Mode, word: Option<string>, words: seq<string>): Option<seq<string>>
    decreases |s|
  {
    if s == "" then
      if mode != Unquoted then None else Some(if word.Some? then words + [word.value] else words)
    else match mode
      case Single =>
        if s[0] == '\'' then Split(s[1..], Unquoted, word, words) else Split(s[1..], Single, Extended(word, s[0]), words)
      case Double =>
        if s[0] == '"' then Split(s[1..], Unquoted, word, words)
        else if s[0] == '$' || s[0] == '`' then None
        else if s[0] == '\\' && |s| > 1 && s[1] == '\n' then Split(s[2..], Double, word, words)
        else if s[0] == '\\' && |s| > 1 && s[1] in "$`\"\\" then Split(s[2..], Double, Extended(word, s[1]), words)
        else Split(s[1..], Double, Extended(word, s[0]), words)
      case Unquoted =>
        if s[0] == ' ' || s[0] == '\t' then Split(s[1..], Unquoted, None, if word.Some? then words + [word.value] else words)
        else if s[0] == '\'' then Split(s[1..], Single, Begun(word), words)
        else if s[0] == '"' then Split(s[1..], Double, Begun(word), words)
        else if s[0] == '\\' then
          if |s| == 1 then None
          else if s[1] == '\n' then Split(s[2..], Unquoted, word, words)
          else Split(s[2..], Unquoted, Extended(word, s[1]), words)
        else if Special(s[0]) then None
        else Split(s[1..], Unquoted, Extended(word, s[0]), words)
  }

  /** A quote begins a word, even an empty one. */
  function Begun(word: Option<string>): Option<string>
  {
    if word.Some? then word else Some("")
  }

  function Words(s: string): Option<seq<string>>
  {
    Split(s, Unquoted, None, [])
  }

  lemma EscapeStarts(c: char, rest: string)
    ensures Escape([c] + rest) == (if c == '\'' then ESCAPED else [c]) + Escape(rest)
  {
    assert ([c] + rest)[1..] == rest && ([c] + rest)[..1] == [c];
    assert QUOTE[0] == '\'' && |QUOTE| == 1;
    assert QUOTE <= [c] + rest <==> c == '\'';
  }

  /** An escaped quote inside single quotes adds one quote to the word. */
  lemma EscapedQuote(rest: string, word: string, words: seq<string>)
    ensures Split(ESCAPED + rest, Single, Some(word), words) == Split(rest, Single, Some(word + "'"), words)
  {
    var after := Some(word + "'");
    var s4 := "'" + rest;
    var s3 := "\"" + s4;
    var s2 := "'" + s3;
    var s1 := "\"" + s2;
    var s0 := "'" + s1;
    assert ESCAPED + rest == s0;
    assert s0[1..] == s1 && s1[1..] == s2 && s2[1..] == s3 && s3[1..] == s4 && s4[1..] == rest;
    assert Split(s2, Double, Some(word), words) == Split(s3, Double, after, words);
    assert Split(s3, Double, after, words) == Split(s4, Unquoted, after, words) == Split(rest, Single, after, words);
  }

  lemma {:induction false} QuotedRest(value: string, rest: string, word: string, words: seq<string>)
    ensures Split(Escape(value) + QUOTE + rest, Single, Some(word), words) == Split(rest, Unquoted, Some(word + value), words)
    decreases |value|
  {
    if value == "" {
      assert (Escape(value) + QUOTE + rest)[1..] == rest && word + value == word;
    } else {
      var more := Escape(value[1..]) + QUOTE + rest;
      assert value == [value[0]] + value[1..];
      EscapeStarts(value[0], value[1..]);
      assert word + [value[0]] + value[1..] == word + value;
      QuotedRest(value[1..], rest, word + [value[0]], words);
      if value[0] == '\'' {
        assert Escape(value) + QUOTE + rest == ESCAPED + more;
        EscapedQuote(more, word, words);
      } else {
        assert Escape(value) + QUOTE + rest == [value[0]] + more;
      }
    }
  }

  /** A quoted word is read as one word. */
  lemma QuotedWord(value: string, rest: string, words: seq<string>)
    ensures Split(Quote(value) + rest, Unquoted, None, words) == Split(rest, Unquoted, Some(value), words)
  {
    var more := Escape(value) + QUOTE + rest;
    assert Quote(value) + rest == QUOTE + more;
    assert (QUOTE + more)[1..] == more;
    QuotedRest(value, rest, "", words);
    assert "" + value == value;
  }

  lemma CommandStarts(argv: seq<string>)
    requires argv != []
    ensures Command(argv) == Quote(argv[0]) + if |argv| == 1 then "" else " " + Command(argv[1..])
  {
    assert QuoteAll(argv)[1..] == QuoteAll(argv[1..]);
    if |argv| > 1 {
      var rest := AliasStream.Join(QuoteAll(argv[1..]), " ");
      assert Quote(argv[0]) + " " + rest == Quote(argv[0]) + (" " + rest);
    }
  }

  /** A space, or the end, ends a quoted word. */
  lemma QuotedWordEnds(value: string, rest: string, words: seq<string>)
    ensures Split(Quote(value) + (" " + rest), Unquoted, None, words) == Split(rest, Unquoted, None, words + [value])
    ensures Split(Quote(value), Unquoted, None, words) == Some(words + [value])
  {
    QuotedWord(value, " " + rest, words);
    assert (" " + rest)[1..] == rest;
    QuotedWord(value, "", words);
    assert Quote(value) + "" == Quote(value);
  }

  lemma {:induction false} SplitsBack(argv: seq<string>, words: seq<string>)
    requires argv != []
    ensures Split(Command(argv), Unquoted, None, words) == Some(words + argv)
    decreases |argv|
  {
    CommandStarts(argv);
    var rest, more := argv[1..], words + [argv[0]];
    assert more + rest == words + argv;
    if rest == [] {
      QuotedWordEnds(argv[0], "", words);
      assert Quote(argv[0]) + "" == Quote(argv[0]);
      assert more == words + argv;
    } else {
      QuotedWordEnds(argv[0], Command(rest), words);
      SplitsBack(rest, more);
    }
  }

  /** The worker's shell runs exactly the argument vector that was meant. */
  lemma RoundTrip(argv: seq<string>)
    ensures Words(Command(argv)) == Some(argv)
  {
    if argv != [] {
      SplitsBack(argv, []);
      assert [] + argv == argv;
    }
  }

  /** So no two argument vectors are sent the same way. */
  lemma CommandIsInjective(a: seq<string>, b: seq<string>)
    requires Command(a) == Command(b)
    ensures a == b
  {
    RoundTrip(a);
    RoundTrip(b);
  }

  /** The loop that builds the command. */
  method BuildCommand(args: seq<string>) returns (command: string)
    ensures command == Command(args)
    ensures Words(command) == Some(args)
  {
    var quoted: seq<string> := [];
    for i := 0 to |args|
      invariant quoted == QuoteAll(args)[..i]
    {
      QuoteAllAt(args, i);
      quoted := quoted + [Quote(args[i])];
    }
    assert quoted == QuoteAll(args);
    command := if quoted == [] then "" else AliasStream.Join(quoted, " ");
    RoundTrip(args);
  }

  lemma {:induction false} QuoteAllAt(argv: seq<string>, i: nat)
    requires i < |argv|
    ensures QuoteAll(argv)[i] == Quote(argv[i])
  {
    if i > 0 { QuoteAllAt(argv[1..], i - 1); }
  }
}

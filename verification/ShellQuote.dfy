/**
 Quoting one argument for a POSIX shell, read back by the word rules of the Shell Command Language
 of IEEE Std 1003.1: the escape character (2.2.1), single-quotes (2.2.2), double-quotes (2.2.3),
 token recognition (2.3) and quote removal (2.6.7).
 */
module ShellQuote {
  import opened Options

  /** `value.replace('\'', "'\"'\"'")` */
  function Escape(s: string): string {
    if s == "" then ""
    else (if s[0] == '\'' then "'\"'\"'" else [s[0]]) + Escape(s[1..])
  }

  function Quote(s: string): string {
    if s == "" then "''" else "'" + Escape(s) + "'"
  }

  /** The command that runs `json` as an inline configuration. */
  function InlineCommand(json: string): string {
    "mqb --config-str " + Quote(json) + " --no-ui --no-metrics"
  }

  /** One quoted argument after another, separated by single spaces. */
  function QuoteAll(arguments: seq<string>): string {
    if arguments == [] then ""
    else if |arguments| == 1 then Quote(arguments[0])
    else Quote(arguments[0]) + (" " + QuoteAll(arguments[1..]))
  }

  // ------------------------------------------------------------------ the shell's word reader

  datatype Mode = Bare | Single | Double

  const NUL: char := '\0'

  predicate AreArguments(arguments: seq<string>) {
    forall i :: 0 <= i < |arguments| ==> NUL !in arguments[i]
  }

  predicate IsBlank(c: char) {
    c == ' ' || c == '\t'
  }

  /** Characters that outside quotes are, or may be, something other than themselves (2.2). */
  predicate IsSpecial(c: char) {
    c in {'|', '&', ';', '<', '>', '(', ')', '$', '`', '\n', '*', '?', '[', '#', '~', '=', '%', '!', '{', '}'}
  }

  function Text(word: Option<string>): string {
    if word.Some? then word.value else ""
  }

  function Flush(words: seq<string>, word: Option<string>): seq<string> {
    if word.Some? then words + [word.value] else words
  }

  /**
   The words of `input`, given those already read, the word under way and the quoting in force.
   `None` when the input is not one line of literal words: a quote is left open, a character has a
   meaning of its own, or there is a NUL, which no argument can hold.
   */
  function Read(input: string, words: seq<string>, word: Option<string>, mode: Mode): Option<seq<string>>
    decreases |input|
  {
    if input == "" then
      if mode == Bare then Some(Flush(words, word)) else None
    else
      var c, rest := input[0], input[1..];
      if c == NUL then None
      else match mode
        case Single =>
          if c == '\'' then Read(rest, words, Some(Text(word)), Bare)
          else Read(rest, words, Some(Text(word) + [c]), Single)
        case Double =>
          if c == '"' then Read(rest, words, Some(Text(word)), Bare)
          else if c == '$' || c == '`' then None
          else if c == '\\' && rest != "" && rest[0] in {'$', '`', '"', '\\'} then
            Read(rest[1..], words, Some(Text(word) + [rest[0]]), Double)
          else if c == '\\' && rest != "" && rest[0] == '\n' then Read(rest[1..], words, word, Double)
          else Read(rest, words, Some(Text(word) + [c]), Double)
        case Bare =>
          if c == '\'' then Read(rest, words, Some(Text(word)), Single)
          else if c == '"' then Read(rest, words, Some(Text(word)), Double)
          else if c == '\\' then
            if rest == "" || rest[0] == NUL then None
            else if rest[0] == '\n' then Read(rest[1..], words, word, Bare)
            else Read(rest[1..], words, Some(Text(word) + [rest[0]]), Bare)
          else if IsBlank(c) then Read(rest, Flush(words, word), None, Bare)
          else if IsSpecial(c) then None
          else Read(rest, words, Some(Text(word) + [c]), Bare)
  }

  /** The words a shell makes of a command line. */
  function ShellWords(line: string): Option<seq<string>> {
    Read(line, [], None, Bare)
  }

  /** Without quotes around it a character with a meaning of its own is no part of a word. */
  lemma SpecialIsRefused(c: char, rest: string, words: seq<string>, word: Option<string>)
    requires c in {'|', '&', ';', '<', '>', '(', ')', '$', '`', '\n', '*', '?', '[', '#', '~', '=', '%', '!', '{', '}'}
    ensures Read([c] + rest, words, word, Bare) == None
  {
    assert ([c] + rest)[0] == c;
  }

  /**
   What a backslash does: outside quotes the next character stands for itself, and a line break goes away (2.2.1); in
   double-quotes so, but only before `$`, a backquote, a double-quote, a backslash or a line break (2.2.3); in
   single-quotes nothing (2.2.2).
   */
  lemma BackslashRules(c: char, rest: string, words: seq<string>, word: Option<string>)
    requires c != NUL
    ensures var escaped := "\\" + [c] + rest;
            && Read(escaped, words, word, Bare) ==
               (if c == '\n' then Read(rest, words, word, Bare) else Read(rest, words, Some(Text(word) + [c]), Bare))
            && Read(escaped, words, word, Double) ==
               (if c == '\n' then Read(rest, words, word, Double)
                else if c == '$' || c == '`' || c == '"' || c == '\\' then Read(rest, words, Some(Text(word) + [c]), Double)
                else Read([c] + rest, words, Some(Text(word) + "\\"), Double))
            && Read(escaped, words, word, Single) == Read([c] + rest, words, Some(Text(word) + "\\"), Single)
  {
    var escaped := "\\" + [c] + rest;
    assert escaped[0] == '\\' && escaped[1..] == [c] + rest && ([c] + rest)[0] == c && ([c] + rest)[1..] == rest;
  }

  /** Double-quotes do not keep the shell from expanding parameters and commands (2.2.3). */
  lemma ExpansionIsRefused(rest: string, words: seq<string>, word: Option<string>)
    ensures Read("$" + rest, words, word, Double) == None && Read("`" + rest, words, word, Double) == None
  {
    assert ("$" + rest)[0] == '$' && ("`" + rest)[0] == '`';
  }

  // ------------------------------------------------------------------ printing and reading

  lemma ReadQuoteMark(rest: string, words: seq<string>, w: string)
    ensures Read("'\"'\"'" + rest, words, Some(w), Single) == Read(rest, words, Some(w + "'"), Single)
  {
    var input := "'\"'\"'" + rest;
    assert input[0] == '\'' && input[1..] == "\"'\"'" + rest;
    assert input[1..][0] == '"' && input[1..][1..] == "'\"'" + rest;
    var third := "'\"'" + rest;
    assert third[0] == '\'' && third[1..] == "\"'" + rest;
    assert third[1..][0] == '"' && third[1..][1..] == "'" + rest;
    var last := "'" + rest;
    assert last[0] == '\'' && last[1..] == rest;
    assert Read(input, words, Some(w), Single) == Read(third, words, Some(w), Double);
    assert Read(third, words, Some(w), Double) == Read(third[1..], words, Some(w + "'"), Double);
    assert Read(third[1..], words, Some(w + "'"), Double) == Read(last, words, Some(w + "'"), Bare);
  }

  lemma {:induction false} ReadEscaped(s: string, rest: string, words: seq<string>, w: string)
    ensures Read(Escape(s) + "'" + rest, words, Some(w), Single) ==
            if NUL in s then None else Read(rest, words, Some(w + s), Bare)
  {
    if s == "" {
      assert Escape(s) + "'" + rest == "'" + rest && ("'" + rest)[1..] == rest;
      assert w + s == w;
    } else {
      var tail := Escape(s[1..]) + "'" + rest;
      assert (w + [s[0]]) + s[1..] == w + s;
      assert NUL in s <==> s[0] == NUL || NUL in s[1..];
      if s[0] == '\'' {
        assert Escape(s) + "'" + rest == "'\"'\"'" + tail;
        ReadQuoteMark(tail, words, w);
        ReadEscaped(s[1..], rest, words, w + [s[0]]);
      } else {
        var input := Escape(s) + "'" + rest;
        assert input == [s[0]] + tail && input[0] == s[0] && input[1..] == tail;
        ReadEscaped(s[1..], rest, words, w + [s[0]]);
      }
    }
  }

  /** Wherever it stands, a quoted string adds exactly itself to the word under way. */
  lemma ReadQuoted(s: string, rest: string, words: seq<string>, word: Option<string>)
    ensures Read(Quote(s) + rest, words, word, Bare) ==
            if NUL in s then None else Read(rest, words, Some(Text(word) + s), Bare)
  {
    var input := Quote(s) + rest;
    var inside := Escape(s) + "'" + rest;
    assert Quote(s) == "'" + Escape(s) + "'";
    assert input == "'" + inside && input[0] == '\'' && input[1..] == inside;
    ReadEscaped(s, rest, words, Text(word));
  }

  /** The quoted form is one word, the string itself, exactly when a shell argument can hold it. */
  lemma QuoteIsOneWord(s: string)
    ensures ShellWords(Quote(s)) == if NUL in s then None else Some([s])
  {
    assert Quote(s) == Quote(s) + "";
    assert "" + s == s;
    ReadQuoted(s, "", [], None);
    assert Flush([], Some(s)) == [s];
  }

  lemma ReadSpace(rest: string, words: seq<string>, w: string)
    ensures Read(" " + rest, words, Some(w), Bare) == Read(rest, words + [w], None, Bare)
  {
    var input := " " + rest;
    assert input[0] == ' ' && input[1..] == rest;
  }

  lemma ReadQuotedArgument(s: string, rest: string, words: seq<string>)
    requires NUL !in s
    ensures Read(Quote(s) + (" " + rest), words, None, Bare) == Read(rest, words + [s], None, Bare)
  {
    hide Read, Quote;
    ReadQuoted(s, " " + rest, words, None);
    assert "" + s == s;
    ReadSpace(rest, words, s);
  }

  lemma ReadLastArgument(s: string, words: seq<string>)
    requires NUL !in s
    ensures Read(Quote(s), words, None, Bare) == Some(words + [s])
  {
    hide Quote;
    ReadQuoted(s, "", words, None);
    assert Quote(s) + "" == Quote(s) && "" + s == s;
  }

  lemma {:induction false} ReadQuoteAll(arguments: seq<string>, words: seq<string>)
    requires arguments != [] && AreArguments(arguments)
    ensures Read(QuoteAll(arguments), words, None, Bare) == Some(words + arguments)
  {
    hide Read, Quote;
    var first, others := arguments[0], arguments[1..];
    assert words + arguments == words + [first] + others;
    if others == [] {
      ReadLastArgument(first, words);
      assert arguments == [first];
    } else {
      assert AreArguments(others);
      ReadQuotedArgument(first, QuoteAll(others), words);
      ReadQuoteAll(others, words + [first]);
    }
  }

  /** Any list of arguments survives being quoted, joined and read. */
  lemma QuotedArgumentsReadBack(arguments: seq<string>)
    requires AreArguments(arguments)
    ensures ShellWords(QuoteAll(arguments)) == Some(arguments)
  {
    if arguments != [] {
      ReadQuoteAll(arguments, []);
    }
    assert [] + arguments == arguments;
  }

  /** A command name or a long option. */
  predicate IsPlain(s: string) {
    s != "" && forall i :: 0 <= i < |s| ==> s[i] == '-' || 'a' <= s[i] <= 'z'
  }

  lemma {:induction false} ReadPlain(s: string, rest: string, words: seq<string>, word: Option<string>)
    requires IsPlain(s)
    ensures Read(s + rest, words, word, Bare) == Read(rest, words, Some(Text(word) + s), Bare)
  {
    var input := s + rest;
    assert input[0] == s[0] && input[1..] == s[1..] + rest;
    assert Text(word) + s == Text(word) + [s[0]] + s[1..];
    if |s| > 1 {
      ReadPlain(s[1..], rest, words, Some(Text(word) + [s[0]]));
    } else {
      assert s[1..] + rest == rest && Text(word) + s == Text(word) + [s[0]];
    }
  }

  lemma ReadPlainWord(s: string, rest: string, words: seq<string>)
    requires IsPlain(s)
    ensures Read(s + (" " + rest), words, None, Bare) == Read(rest, words + [s], None, Bare)
  {
    hide Read;
    assert "" + s == s;
    ReadPlain(s, " " + rest, words, None);
    ReadSpace(rest, words, s);
  }

  lemma FixedWordsArePlain()
    ensures IsPlain("mqb") && IsPlain("--config-str") && IsPlain("--no-ui") && IsPlain("--no-metrics")
  {
  }

  lemma InlineCommandSplits(json: string)
    ensures InlineCommand(json) ==
            "mqb" + (" " + ("--config-str" + (" " + (Quote(json) + (" " + ("--no-ui" + (" " + "--no-metrics")))))))
  {
    assert " --no-ui --no-metrics" == " " + ("--no-ui" + (" " + "--no-metrics"));
    assert "mqb --config-str " == ("mqb" + " ") + ("--config-str" + " ");
    Regroup("mqb", " ", "--config-str", " ", Quote(json), " " + ("--no-ui" + (" " + "--no-metrics")));
  }

  lemma Regroup(a: string, b: string, c: string, d: string, e: string, f: string)
    ensures ((a + b) + (c + d)) + e + f == a + (b + (c + (d + (e + f))))
  {
  }

  /** The exported command line is five words, and the third is the configuration, unchanged. */
  lemma InlineCommandReadsBack(json: string)
    ensures ShellWords(InlineCommand(json)) ==
            if NUL in json then None else Some(["mqb", "--config-str", json, "--no-ui", "--no-metrics"])
  {
    hide Read, IsPlain, Quote, InlineCommand;
    FixedWordsArePlain();
    var last := "--no-ui" + (" " + "--no-metrics");
    var option := "--config-str" + (" " + (Quote(json) + (" " + last)));
    InlineCommandSplits(json);
    ReadPlainWord("mqb", option, []);
    ReadPlainWord("--config-str", Quote(json) + (" " + last), [] + ["mqb"]);
    var head := [] + ["mqb"] + ["--config-str"];
    ReadQuoted(json, " " + last, head, None);
    assert "" + json == json;
    ReadSpace(last, head, json);
    ReadPlainWord("--no-ui", "--no-metrics", head + [json]);
    var four := head + [json] + ["--no-ui"];
    ReadPlainLast("--no-metrics", four);
    assert four + ["--no-metrics"] == ["mqb", "--config-str", json, "--no-ui", "--no-metrics"];
  }

  lemma ReadPlainLast(s: string, words: seq<string>)
    requires IsPlain(s)
    ensures Read(s, words, None, Bare) == Some(words + [s])
  {
    assert "" + s == s && s + "" == s;
    ReadPlain(s, "", words, None);
  }

  // ------------------------------------------------------------------ why quotes are replaced

  function Length(words: seq<string>): nat {
    if words == [] then 0 else Length(words[..|words| - 1]) + |words[|words| - 1]|
  }

  lemma LengthOfOne(s: string)
    ensures Length([s]) == |s| && Length([]) == 0
  {
    assert [s][..0] == [];
  }

  function LastQuote(input: string): nat {
    if input != "" && input[|input| - 1] == '\'' then 1 else 0
  }

  lemma LengthFlushed(words: seq<string>, word: Option<string>)
    ensures Length(Flush(words, word)) == Length(words) + |Text(word)|
  {
    assert (words + [Text(word)])[..|words|] == words;
  }

  /** Reading never yields more characters than it is given, and a last quote yields none. */
  lemma {:induction false} ReadOnlyShrinks(input: string, words: seq<string>, word: Option<string>, mode: Mode)
    ensures var r := Read(input, words, word, mode);
            r.Some? ==> Length(r.value) + LastQuote(input) <= Length(words) + |Text(word)| + |input|
    decreases |input|, 1
  {
    match mode
    case Single => SingleShrinks(input, words, word);
    case Double => DoubleShrinks(input, words, word);
    case Bare => BareShrinks(input, words, word);
  }

  lemma {:induction false} SingleShrinks(input: string, words: seq<string>, word: Option<string>)
    ensures var r := Read(input, words, word, Single);
            r.Some? ==> Length(r.value) + LastQuote(input) <= Length(words) + |Text(word)| + |input|
    decreases |input|, 0
  {
    hide Length;
    if input != "" {
      var c, rest := input[0], input[1..];
      ReadOnlyShrinks(rest, words, Some(Text(word)), Bare);
      ReadOnlyShrinks(rest, words, Some(Text(word) + [c]), Single);
    }
  }

  lemma {:induction false} DoubleShrinks(input: string, words: seq<string>, word: Option<string>)
    ensures var r := Read(input, words, word, Double);
            r.Some? ==> Length(r.value) + LastQuote(input) <= Length(words) + |Text(word)| + |input|
    decreases |input|, 0
  {
    hide Length;
    if input != "" {
      var c, rest := input[0], input[1..];
      ReadOnlyShrinks(rest, words, Some(Text(word)), Bare);
      ReadOnlyShrinks(rest, words, Some(Text(word) + [c]), Double);
      if rest != "" {
        ReadOnlyShrinks(rest[1..], words, word, Double);
        ReadOnlyShrinks(rest[1..], words, Some(Text(word) + [rest[0]]), Double);
      }
    }
  }

  lemma {:induction false} BareShrinks(input: string, words: seq<string>, word: Option<string>)
    ensures var r := Read(input, words, word, Bare);
            r.Some? ==> Length(r.value) + LastQuote(input) <= Length(words) + |Text(word)| + |input|
    decreases |input|, 0
  {
    LengthFlushed(words, word);
    hide Length, Flush;
    if input != "" {
      var c, rest := input[0], input[1..];
      ReadOnlyShrinks(rest, words, Some(Text(word)), Single);
      ReadOnlyShrinks(rest, words, Some(Text(word)), Double);
      ReadOnlyShrinks(rest, words, Some(Text(word) + [c]), Bare);
      ReadOnlyShrinks(rest, Flush(words, word), None, Bare);
      if rest != "" {
        ReadOnlyShrinks(rest[1..], words, word, Bare);
        ReadOnlyShrinks(rest[1..], words, Some(Text(word) + [rest[0]]), Bare);
      }
    }
  }

  /** A closing quote inside `s` ends the quoting: what follows is read outside quotes. */
  lemma {:induction false} ReadToQuote(s: string, rest: string, words: seq<string>, w: string)
    requires '\'' in s
    ensures var r := Read(s + rest, words, Some(w), Single);
            r.Some? ==> Length(r.value) + LastQuote(rest) < Length(words) + |w| + |s| + |rest|
  {
    var input := s + rest;
    assert input[0] == s[0] && input[1..] == s[1..] + rest;
    if s[0] == '\'' {
      ReadOnlyShrinks(s[1..] + rest, words, Some(w), Bare);
    } else {
      ReadToQuote(s[1..], rest, words, w + [s[0]]);
    }
  }

  lemma {:induction false} ReadToEnd(s: string, words: seq<string>, w: string)
    requires '\'' !in s && NUL !in s
    ensures Read(s + "'", words, Some(w), Single) == Some(words + [w + s])
  {
    var input := s + "'";
    if s == "" {
      assert input[0] == '\'' && input[1..] == "" && w + s == w;
    } else {
      assert input[0] == s[0] && input[1..] == s[1..] + "'";
      ReadToEnd(s[1..], words, w + [s[0]]);
      assert (w + [s[0]]) + s[1..] == w + s;
    }
  }

  lemma PlainQuotesRead(s: string)
    requires NUL !in s
    ensures ShellWords("'" + s + "'") == Some([s]) <==> '\'' !in s
  {
    var line := "'" + s + "'";
    assert line[0] == '\'' && line[1..] == s + "'";
    if '\'' in s {
      ReadToQuote(s, "'", [], "");
      LengthOfOne(s);
    } else {
      ReadToEnd(s, [], "");
      assert "" + s == s;
      assert [] + ["" + s] == [s];
    }
  }

  lemma {:induction false} EscapedIsLonger(s: string)
    ensures |Escape(s)| >= |s| && (Escape(s) == s <==> '\'' !in s)
  {
    if s != "" {
      EscapedIsLonger(s[1..]);
      assert s == [s[0]] + s[1..];
      assert s[0] != '\'' ==> Escape(s)[1..] == Escape(s[1..]);
    }
  }

  /** The replacement is made exactly where quotes without it would not read back. */
  lemma ReplacedExactlyWhenNeeded(s: string)
    requires NUL !in s
    ensures Quote(s) == "'" + s + "'" <==> ShellWords("'" + s + "'") == Some([s])
  {
    EscapedIsLonger(s);
    assert s != "" ==> Quote(s)[1..|Quote(s)| - 1] == Escape(s);
    assert ("'" + s + "'")[1..|s| + 1] == s;
    hide Escape;
    PlainQuotesRead(s);
  }
}

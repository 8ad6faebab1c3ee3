/** Quoting a command and its arguments for a POSIX shell, and the shell reading them back. */
module CommandLine {
  import opened Wrappers

  // ---------- The printer ----------

  /** `[\w./:=@-]`. */
  predicate Safe(c: char) {
    || 'a' <= c <= 'z' || 'A' <= c <= 'Z' || '0' <= c <= '9' || c == '_'
    || c == '.' || c == '/' || c == ':' || c == '=' || c == '@' || c == '-'
  }

  predicate AllSafe(s: string) {
    forall i :: 0 <= i < |s| ==> Safe(s[i])
  }

  /** Each single quote closed, escaped and opened again. */
  function Escaped(s: string): string {
    if s == "" then "" else (if s[0] == '\'' then "'\\''" else [s[0]]) + Escaped(s[1..])
  }

  function QuoteShellArg(arg: string): string {
    if arg != "" && AllSafe(arg) then arg else "'" + Escaped(arg) + "'"
  }

  function Spaced(words: seq<string>): string
    requires words != []
  {
    if |words| == 1 then words[0] else words[0] + " " + Spaced(words[1..])
  }

  function Quoted(words: seq<string>): (q: seq<string>)
    ensures |q| == |words| && forall i :: 0 <= i < |q| ==> q[i] == QuoteShellArg(words[i])
  {
    seq(|words|, i requires 0 <= i < |words| => QuoteShellArg(words[i]))
  }

  function BuildCommandLine(command: string, args: seq<string>): string {
    if args == [] then command else Spaced([QuoteShellArg(command)] + Quoted(args))
  }

  // ---------- The shell's reader ----------

  /** The words of a simple command; or the text is cut short inside a quote; or it holds something
      that is more than plain words: an operator, an expansion, a comment, a pattern. */
  datatype Tokens = Words(words: seq<string>) | Unfinished | MoreThanWords

  function Finish(word: Option<string>, rest: Tokens): Tokens {
    if word.Some? && rest.Words? then Words([word.value] + rest.words) else rest
  }

  function So(word: Option<string>): string {
    if word.Some? then word.value else ""
  }

  /** Starts an operator, an expansion or a pattern when it is not quoted. Every bracket counts, closed or not. */
  predicate Active(c: char) {
    || c == '\n' || c == '&' || c == '|' || c == ';' || c == '<' || c == '>' || c == '(' || c == ')'
    || c == '$' || c == '`' || c == '*' || c == '?' || c == '['
  }

  /** Starts a comment or names a home directory, at the beginning of a word only. */
  predicate ActiveFirst(c: char) {
    c == '#' || c == '~'
  }

  /** Token recognition and quote removal, sections 2.2 and 2.3 of the POSIX.1-2017 Shell Command
      Language: `word` is the token being built, if one has begun. */
  function Read(s: string, word: Option<string>): Tokens
    decreases |s|, 1
  {
    if s == "" then Finish(word, Words([]))
    else if s[0] == ' ' || s[0] == '\t' then Finish(word, Read(s[1..], None))
    else if s[0] == '\'' then ReadSingle(s[1..], So(word))
    else if s[0] == '"' then ReadDouble(s[1..], So(word))
    else if s[0] == '\\' then
      if |s| == 1 then Unfinished
      else if s[1] == '\n' then Read(s[2..], word)
      else Read(s[2..], Some(So(word) + [s[1]]))
    else if Active(s[0]) || (ActiveFirst(s[0]) && word.None?) then MoreThanWords
    else Read(s[1..], Some(So(word) + [s[0]]))
  }

  /** Inside single quotes everything is literal. */
  function ReadSingle(s: string, word: string): Tokens
    decreases |s|, 0
  {
    if s == "" then Unfinished
    else if s[0] == '\'' then Read(s[1..], Some(word))
    else ReadSingle(s[1..], word + [s[0]])
  }

  /** Inside double quotes expansions still happen, and a backslash quotes only what is special there. */
  function ReadDouble(s: string, word: string): Tokens
    decreases |s|, 0
  {
    if s == "" then Unfinished
    else if s[0] == '"' then Read(s[1..], Some(word))
    else if s[0] == '$' || s[0] == '`' then MoreThanWords
    else if s[0] == '\\' && |s| > 1 && s[1] == '\n' then ReadDouble(s[2..], word)
    else if s[0] == '\\' && |s| > 1 && (s[1] == '$' || s[1] == '`' || s[1] == '"' || s[1] == '\\') then ReadDouble(s[2..], word + [s[1]])
    else ReadDouble(s[1..], word + [s[0]])
  }

  // ---------- They undo each other ----------

  lemma {:induction false} ReadSafe(arg: string, rest: string, word: Option<string>)
    requires AllSafe(arg) && arg != ""
    ensures Read(arg + rest, word) == Read(rest, Some(So(word) + arg))
    decreases |arg|
  {
    var s := arg + rest;
    assert Safe(arg[0]);
    assert s[0] == arg[0] && s[1..] == arg[1..] + rest;
    var next := Some(So(word) + [arg[0]]);
    assert Read(s, word) == Read(s[1..], next);
    if |arg| > 1 {
      ReadSafe(arg[1..], rest, next);
      assert So(word) + [arg[0]] + arg[1..] == So(word) + arg;
    } else {
      assert arg[1..] + rest == rest && [arg[0]] == arg;
    }
  }

  lemma {:induction false} ReadEscaped(arg: string, rest: string, word: string)
    ensures ReadSingle(Escaped(arg) + "'" + rest, word) == Read(rest, Some(word + arg))
    decreases |arg|
  {
    var s := Escaped(arg) + "'" + rest;
    if arg == "" {
      assert s[1..] == rest && word + arg == word;
    } else {
      var tail := Escaped(arg[1..]) + "'" + rest;
      ReadEscaped(arg[1..], rest, word + [arg[0]]);
      assert (word + [arg[0]]) + arg[1..] == word + arg;
      if arg[0] == '\'' {
        assert s == "'\\''" + tail;
        var t := s[1..];
        assert t[0] == '\\' && t[1] == '\'' && t[2] == '\'' && t[2..][1..] == tail;
        assert Read(t, Some(word)) == Read(t[2..], Some(word + ['\'']));
      } else {
        assert s == [arg[0]] + tail;
      }
    }
  }

  /** Whatever the argument holds, the reader takes the quoted text for exactly that argument. */
  lemma ReadQuoted(arg: string, rest: string)
    ensures Read(QuoteShellArg(arg) + rest, None) == Read(rest, Some(arg))
  {
    if arg != "" && AllSafe(arg) {
      ReadSafe(arg, rest, None);
      assert "" + arg == arg;
    } else {
      var s := QuoteShellArg(arg) + rest;
      assert s[0] == '\'' && s[1..] == Escaped(arg) + "'" + rest;
      ReadEscaped(arg, rest, "");
      assert "" + arg == arg;
    }
  }

  lemma {:induction false} ReadSpaced(words: seq<string>)
    requires words != []
    ensures Read(Spaced(Quoted(words)), None) == Words(words)
    decreases |words|
  {
    var q := Quoted(words);
    if |words| == 1 {
      ReadQuoted(words[0], "");
      assert q[0] + "" == q[0];
      assert Read("", Some(words[0])) == Words([words[0]]);
    } else {
      var rest := " " + Spaced(q[1..]);
      assert q[1..] == Quoted(words[1..]);
      assert Spaced(q) == q[0] + rest;
      ReadQuoted(words[0], rest);
      assert rest[1..] == Spaced(q[1..]);
      ReadSpaced(words[1..]);
      assert [words[0]] + words[1..] == words;
    }
  }

  /** For every command and every non-empty list of arguments the shell reads back exactly what was given. */
  lemma RoundTrip(command: string, args: seq<string>)
    requires args != []
    ensures Read(BuildCommandLine(command, args), None) == Words([command] + args)
  {
    ReadSpaced([command] + args);
    assert Quoted([command] + args) == [QuoteShellArg(command)] + Quoted(args);
  }

  /** So no two invocations with arguments share a command line. */
  lemma LinesDiffer(c1: string, a1: seq<string>, c2: string, a2: seq<string>)
    requires a1 != [] && a2 != [] && BuildCommandLine(c1, a1) == BuildCommandLine(c2, a2)
    ensures c1 == c2 && a1 == a2
  {
    RoundTrip(c1, a1);
    RoundTrip(c2, a2);
    assert ([c1] + a1)[1..] == a1 && ([c2] + a2)[1..] == a2;
    assert ([c1] + a1)[0] == c1 && ([c2] + a2)[0] == c2;
  }

  // ---------- A command without arguments ----------

  /** Stands for itself anywhere in a word. */
  predicate Ordinary(c: char) {
    c != ' ' && c != '\t' && c != '\'' && c != '"' && c != '\\' && !Active(c)
  }

  predicate AllOrdinary(s: string) {
    forall i :: 0 <= i < |s| ==> Ordinary(s[i])
  }

  function Total(words: seq<string>): nat {
    if words == [] then 0 else |words[0]| + Total(words[1..])
  }

  lemma FinishTotal(word: Option<string>, rest: Tokens)
    requires Finish(word, rest).Words?
    ensures rest.Words? && Total(Finish(word, rest).words) == |So(word)| + Total(rest.words)
  {
    if word.Some? { assert ([word.value] + rest.words)[1..] == rest.words; }
  }

  /** The words read are never longer than the text, and as long only if every character stands for itself. */
  lemma {:induction false} ReadTotal(s: string, word: Option<string>)
    requires Read(s, word).Words?
    ensures Total(Read(s, word).words) <= |So(word)| + |s|
    ensures Total(Read(s, word).words) == |So(word)| + |s| ==> AllOrdinary(s) && (s != "" && word.None? ==> !ActiveFirst(s[0]))
    decreases |s|, 1
  {
    if s == "" {
      FinishTotal(word, Words([]));
    } else if s[0] == ' ' || s[0] == '\t' {
      FinishTotal(word, Read(s[1..], None));
      ReadTotal(s[1..], None);
    } else if s[0] == '\'' {
      SingleTotal(s[1..], So(word));
    } else if s[0] == '"' {
      DoubleTotal(s[1..], So(word));
    } else if s[0] == '\\' {
      if s[1] == '\n' { ReadTotal(s[2..], word); } else { ReadTotal(s[2..], Some(So(word) + [s[1]])); }
    } else {
      ReadTotal(s[1..], Some(So(word) + [s[0]]));
      assert forall i :: 0 < i < |s| ==> s[i] == s[1..][i - 1];
    }
  }

  lemma {:induction false} SingleTotal(s: string, word: string)
    requires ReadSingle(s, word).Words?
    ensures Total(ReadSingle(s, word).words) < |word| + |s|
    decreases |s|, 0
  {
    if s[0] == '\'' { ReadTotal(s[1..], Some(word)); } else { SingleTotal(s[1..], word + [s[0]]); }
  }

  lemma {:induction false} DoubleTotal(s: string, word: string)
    requires ReadDouble(s, word).Words?
    ensures Total(ReadDouble(s, word).words) < |word| + |s|
    decreases |s|, 0
  {
    if s[0] == '"' {
      ReadTotal(s[1..], Some(word));
    } else if s[0] == '\\' && |s| > 1 && s[1] == '\n' {
      DoubleTotal(s[2..], word);
    } else if s[0] == '\\' && |s| > 1 && (s[1] == '$' || s[1] == '`' || s[1] == '"' || s[1] == '\\') {
      DoubleTotal(s[2..], word + [s[1]]);
    } else {
      DoubleTotal(s[1..], word + [s[0]]);
    }
  }

  lemma {:induction false} ReadOrdinary(s: string, word: string)
    requires AllOrdinary(s)
    ensures Read(s, Some(word)) == Words([word + s])
    decreases |s|
  {
    if s == "" {
      assert word + s == word;
    } else {
      assert Ordinary(s[0]);
      assert Read(s, Some(word)) == Read(s[1..], Some(word + [s[0]]));
      ReadOrdinary(s[1..], word + [s[0]]);
      assert (word + [s[0]]) + s[1..] == word + s;
    }
  }

  /** Without arguments the command is not quoted. It is read back as that one word exactly if it is not empty, every
      character stands for itself, and it does not open a comment or name a home directory. */
  lemma BareCommandIsOneWord(command: string)
    ensures Read(BuildCommandLine(command, []), None) == Words([command]) <==>
      command != "" && AllOrdinary(command) && !ActiveFirst(command[0])
  {
    if command != "" && AllOrdinary(command) && !ActiveFirst(command[0]) {
      assert Ordinary(command[0]);
      assert So(None) + [command[0]] == [command[0]];
      assert Read(command, None) == Read(command[1..], Some([command[0]]));
      ReadOrdinary(command[1..], [command[0]]);
      assert [command[0]] + command[1..] == command;
    }
    if command == "" {
      assert |Read(command, None).words| == 0;
    } else if Read(command, None) == Words([command]) {
      ReadTotal(command, None);
      assert Total([command]) == |command| by { assert [command][1..] == []; }
    }
  }

  /** Without arguments the command is not quoted: it is a line for the shell, not one word. */
  lemma BareCommandIsALine()
    ensures Read(BuildCommandLine("a b", []), None) == Words(["a", "b"])
  {
    ReadSafe("a", " b", None);
    assert "a" + " b" == "a b" && "" + "a" == "a";
    ReadSafe("b", "", None);
    assert "b" + "" == "b" && "" + "b" == "b";
    assert " b"[1..] == "b";
  }
}

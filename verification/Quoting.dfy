/** Argument lists printed as command lines, and the command-line rules that read them back. */
module Quoting {
  import opened Options

  /** `words.join(" ")`. */
  function Join(words: seq<string>): string {
    if words == [] then ""
    else if |words| == 1 then words[0]
    else words[0] + " " + Join(words[1..])
  }

  /** What may follow a printed word: nothing, or a space. */
  predicate Ends(tail: string) {
    tail == "" || tail[0] == ' '
  }

  function Finish(word: Option<string>): seq<string> {
    if word.Some? then [word.value] else []
  }

  function Text(word: Option<string>): string {
    if word.Some? then word.value else ""
  }

  // ---- POSIX ----

  /** Embedded single quotes, each as `'\''`. */
  function Escaped(s: string): string {
    if s == "" then ""
    else if s[0] == '\'' then "'\\''" + Escaped(s[1..])
    else [s[0]] + Escaped(s[1..])
  }

  function ShellQuote(s: string): string {
    if s == "" then "''" else "'" + Escaped(s) + "'"
  }

  /** What an unquoted character of the shell language would do more than stand for itself. */
  predicate Special(c: char) {
    c in "|&;<>()$`\"\t\n*?[#~=%!{}"
  }

  /**
   Words under the escape-character and single-quote rules (sections 2.2.1 and 2.2.2 of the
   POSIX.1-2017 Shell Command Language). `None` where a quote is left open or another rule would apply.
   */
  function Words(s: string, word: Option<string>): Option<seq<string>>
    decreases |s|
  {
    if s == "" then Some(Finish(word))
    else if s[0] == ' ' then
      match Words(s[1..], None)
      case None => None
      case Some(rest) => Some(Finish(word) + rest)
    else if s[0] == '\\' then
      if |s| == 1 then None
      else if s[1] == '\n' then Words(s[2..], word)
      else Words(s[2..], Some(Text(word) + [s[1]]))
    else if s[0] == '\'' then InQuotes(s[1..], Text(word))
    else if Special(s[0]) then None
    else Words(s[1..], Some(Text(word) + [s[0]]))
  }

  function InQuotes(s: string, word: string): Option<seq<string>>
    decreases |s|
  {
    if s == "" then None
    else if s[0] == '\'' then Words(s[1..], Some(word))
    else InQuotes(s[1..], word + [s[0]])
  }

  /** A quote, an escaped quote, a quote: leave the quotes for one character. */
  lemma EscapedQuote(rest: string, word: string)
    ensures InQuotes("'\\''" + rest, word) == InQuotes(rest, word + "'")
  {
    var s0 := "'\\''" + rest;
    var s1 := s0[1..];
    var s2 := s1[2..];
    assert InQuotes(s0, word) == Words(s1, Some(word));
    assert s1[0] == '\\' && s1[1] == '\'' && [s1[1]] == "'";
    assert Words(s1, Some(word)) == Words(s2, Some(word + "'"));
    assert s2[0] == '\'' && s2[1..] == rest;
  }

  lemma {:induction false} EscapedReadsBack(s: string, tail: string, word: string)
    ensures InQuotes(Escaped(s) + "'" + tail, word) == Words(tail, Some(word + s))
    decreases |s|
  {
    hide Words;
    var text := Escaped(s) + "'" + tail;
    if s == "" {
      assert text == "'" + tail;
      assert text[1..] == tail;
      assert word + s == word;
    } else {
      var rest := Escaped(s[1..]) + "'" + tail;
      EscapedReadsBack(s[1..], tail, word + [s[0]]);
      assert word + [s[0]] + s[1..] == word + s;
      if s[0] == '\'' {
        assert text == "'\\''" + rest;
        EscapedQuote(rest, word);
        assert [s[0]] == "'";
      } else {
        assert text == [s[0]] + rest;
        assert text[1..] == rest;
      }
    }
  }

  lemma OpeningQuote(rest: string)
    ensures Words("'" + rest, None) == InQuotes(rest, "")
  {
    assert ("'" + rest)[1..] == rest;
  }

  lemma ShellQuoteShape(s: string)
    ensures ShellQuote(s) == "'" + Escaped(s) + "'"
  {
  }

  lemma QuotedReadsBack(s: string, tail: string)
    ensures Words(ShellQuote(s) + tail, None) == Words(tail, Some(s))
  {
    hide Words; hide InQuotes; hide Escaped; hide ShellQuote;
    var rest := Escaped(s) + "'" + tail;
    ShellQuoteShape(s);
    assert ("'" + Escaped(s) + "'") + tail == "'" + rest;
    OpeningQuote(rest);
    EscapedReadsBack(s, tail, "");
    assert "" + s == s;
  }

  lemma NextWord(word: string, rest: string)
    ensures Words(" " + rest, Some(word)) ==
            match Words(rest, None) { case None => None case Some(words) => Some([word] + words) }
    ensures Words("", Some(word)) == Some([word])
    ensures Words("", None) == Some([])
  {
    assert (" " + rest)[1..] == rest;
  }

  function Quoted(argv: seq<string>): (words: seq<string>)
    ensures |words| == |argv|
  {
    if argv == [] then [] else [ShellQuote(argv[0])] + Quoted(argv[1..])
  }

  /** Every argument list survives being printed for a POSIX shell. */
  lemma {:induction false} PosixRoundTrip(argv: seq<string>)
    ensures Words(Join(Quoted(argv)), None) == Some(argv)
    decreases |argv|
  {
    hide Words; hide ShellQuote;
    if argv == [] {
      NextWord("", "");
    } else {
      var rest := Quoted(argv[1..]);
      assert Quoted(argv)[1..] == rest;
      assert [argv[0]] + argv[1..] == argv;
      NextWord(argv[0], Join(rest));
      if |argv| == 1 {
        assert argv == [argv[0]];
        assert ShellQuote(argv[0]) + "" == ShellQuote(argv[0]);
        QuotedReadsBack(argv[0], "");
      } else {
        PosixRoundTrip(argv[1..]);
        var tail := " " + Join(rest);
        assert Join(Quoted(argv)) == ShellQuote(argv[0]) + tail;
        QuotedReadsBack(argv[0], tail);
      }
    }
  }

  // ---- the Microsoft C rules ----

  /** `char::is_whitespace`: the White_Space property of Unicode. */
  predicate IsWhitespace(c: char) {
    var n := c as int;
    || 9 <= n <= 13 || n == 0x20 || n == 0x85 || n == 0xA0 || n == 0x1680 || 0x2000 <= n <= 0x200A
    || n == 0x2028 || n == 0x2029 || n == 0x202F || n == 0x205F || n == 0x3000
  }

  predicate Plain(arg: string) {
    arg != "" && forall i :: 0 <= i < |arg| ==> !IsWhitespace(arg[i]) && arg[i] != '"'
  }

  function Backslashes(n: nat): (s: string)
    ensures |s| == n && forall i :: 0 <= i < n ==> s[i] == '\\'
  {
    if n == 0 then "" else "\\" + Backslashes(n - 1)
  }

  /** What is left to print of a quoted argument when `n` backslashes are pending. */
  function Body(arg: string, n: nat): string
    decreases |arg|
  {
    if arg == "" then Backslashes(2 * n) + "\""
    else if arg[0] == '\\' then Body(arg[1..], n + 1)
    else if arg[0] == '"' then Backslashes(2 * n + 1) + "\"" + Body(arg[1..], 0)
    else Backslashes(n) + [arg[0]] + Body(arg[1..], 0)
  }

  function WindowsArg(arg: string): string {
    if Plain(arg) then arg else "\"" + Body(arg, 0)
  }

  /** A quoted argument is longer than it was. */
  lemma {:induction false} BodyIsLonger(arg: string, n: nat)
    ensures |Body(arg, n)| > |arg| + n
    decreases |arg|
  {
    if arg != "" {
      BodyIsLonger(arg[1..], if arg[0] == '\\' then n + 1 else 0);
    }
  }

  /** Only an argument that needs it is quoted: an empty one, or one with a quote or white space in it. */
  lemma QuotedOnlyIfNeeded(arg: string)
    ensures WindowsArg(arg) == arg <==> arg != "" && '"' !in arg && forall i :: 0 <= i < |arg| ==> !IsWhitespace(arg[i])
  {
    hide IsWhitespace; hide Body;
    BodyIsLonger(arg, 0);
  }

  /** One pass, with the pending backslashes counted. */
  method WindowsCommandLineArg(arg: string) returns (quoted: string)
    ensures quoted == WindowsArg(arg)
  {
    var plain := arg != "";
    for i := 0 to |arg|
      invariant plain <==> arg != "" && forall j :: 0 <= j < i ==> !IsWhitespace(arg[j]) && arg[j] != '"'
    {
      if IsWhitespace(arg[i]) || arg[i] == '"' {
        plain := false;
      }
    }
    if plain {
      return arg;
    }
    quoted := "\"";
    var backslashes := 0;
    assert arg[0..] == arg;
    for i := 0 to |arg|
      invariant quoted + Body(arg[i..], backslashes) == "\"" + Body(arg, 0)
    {
      var c := arg[i];
      ghost var rest := arg[i..];
      assert rest[1..] == arg[i + 1..];
      if c == '\\' {
        backslashes := backslashes + 1;
      } else if c == '"' {
        quoted := quoted + Backslashes(backslashes * 2 + 1) + "\"";
        backslashes := 0;
      } else {
        quoted := quoted + Backslashes(backslashes) + [c];
        backslashes := 0;
      }
    }
    quoted := quoted + Backslashes(backslashes * 2) + "\"";
  }

  /** The run of backslashes `s` starts with. */
  function Run(s: string): (n: nat)
    ensures n <= |s| && s[..n] == Backslashes(n)
    ensures n < |s| ==> s[n] != '\\'
  {
    if s != "" && s[0] == '\\' then
      var n := Run(s[1..]);
      assert s[..n + 1] == "\\" + s[1..][..n];
      n + 1
    else 0
  }

  /**
   The Microsoft C rules for arguments after the program name: spaces and tabs separate outside
   quotes; `2n` backslashes before a quote are `n` and the quote opens or closes; `2n + 1` are `n` and
   a literal quote; other backslashes are literal; a doubled quote inside quotes is a literal one.
   */
  function Arguments(s: string, word: Option<string>, quotes: bool): seq<string>
    decreases |s|
  {
    if s == "" then Finish(word)
    else
      var n := Run(s);
      if n > 0 then
        if n < |s| && s[n] == '"' then
          if n % 2 == 1 then Arguments(s[n + 1..], Some(Text(word) + Backslashes(n / 2) + "\""), quotes)
          else Arguments(s[n..], Some(Text(word) + Backslashes(n / 2)), quotes)
        else Arguments(s[n..], Some(Text(word) + Backslashes(n)), quotes)
      else if s[0] == '"' then
        if quotes && |s| > 1 && s[1] == '"' then Arguments(s[2..], Some(Text(word) + "\""), quotes)
        else Arguments(s[1..], Some(Text(word)), !quotes)
      else if !quotes && (s[0] == ' ' || s[0] == '\t') then Finish(word) + Arguments(s[1..], None, false)
      else Arguments(s[1..], Some(Text(word) + [s[0]]), quotes)
  }

  lemma {:induction false} RunOf(n: nat, tail: string)
    requires tail == "" || tail[0] != '\\'
    ensures Run(Backslashes(n) + tail) == n
  {
    var s := Backslashes(n) + tail;
    if n == 0 {
      assert s == tail;
    } else {
      assert s[1..] == Backslashes(n - 1) + tail;
      RunOf(n - 1, tail);
    }
  }

  /** Backslashes before anything but a quote stand for themselves. */
  lemma LiteralRun(n: nat, tail: string, word: string, quotes: bool)
    requires tail == "" || (tail[0] != '\\' && tail[0] != '"')
    ensures Arguments(Backslashes(n) + tail, Some(word), quotes) == Arguments(tail, Some(word + Backslashes(n)), quotes)
  {
    var s := Backslashes(n) + tail;
    if n == 0 {
      assert s == tail && word + Backslashes(0) == word;
    } else {
      RunOf(n, tail);
      assert s[n..] == tail;
    }
  }

  /** A run before a quote is half of it, and the quote is literal or not by whether it is odd. */
  lemma RunBeforeQuote(n: nat, tail: string, word: string)
    requires n > 0
    ensures Arguments(Backslashes(n) + ("\"" + tail), Some(word), true)
            == if n % 2 == 1 then Arguments(tail, Some(word + Backslashes(n / 2) + "\""), true)
               else Arguments("\"" + tail, Some(word + Backslashes(n / 2)), true)
  {
    hide Run; hide Backslashes;
    var close := "\"" + tail;
    var s := Backslashes(n) + close;
    RunOf(n, close);
    assert s[n] == '"' && s[n..] == close && s[n + 1..] == tail;
  }

  /** An odd run before a quote is half of it and the quote. */
  lemma OddRun(n: nat, tail: string, word: string)
    ensures Arguments(Backslashes(2 * n + 1) + "\"" + tail, Some(word), true)
            == Arguments(tail, Some(word + Backslashes(n) + "\""), true)
  {
    hide Arguments;
    assert Backslashes(2 * n + 1) + "\"" + tail == Backslashes(2 * n + 1) + ("\"" + tail);
    RunBeforeQuote(2 * n + 1, tail, word);
    assert (2 * n + 1) / 2 == n;
  }

  lemma ClosingQuote(tail: string, word: string)
    requires Ends(tail)
    ensures Arguments("\"" + tail, Some(word), true) == Arguments(tail, Some(word), false)
  {
    var s := "\"" + tail;
    assert s[1..] == tail;
  }

  /** An even run before the closing quote is half of it. */
  lemma EvenRun(n: nat, tail: string, word: string)
    requires Ends(tail)
    ensures Arguments(Backslashes(2 * n) + "\"" + tail, Some(word), true)
            == Arguments(tail, Some(word + Backslashes(n)), false)
  {
    hide Arguments;
    var close := "\"" + tail;
    assert Backslashes(2 * n) + "\"" + tail == Backslashes(2 * n) + close;
    ClosingQuote(tail, word + Backslashes(n));
    if n == 0 {
      assert Backslashes(0) + close == close && word + Backslashes(0) == word;
    } else {
      RunBeforeQuote(2 * n, tail, word);
    }
  }

  lemma {:induction false} BackslashesAppend(n: nat)
    ensures Backslashes(n + 1) == Backslashes(n) + "\\"
  {
  }

  lemma OneCharacter(c: char, tail: string, word: string)
    requires c != '\\' && c != '"'
    ensures Arguments([c] + tail, Some(word), true) == Arguments(tail, Some(word + [c]), true)
  {
    assert ([c] + tail)[1..] == tail;
  }

  /** A quoted argument reads back, whatever backslashes it holds and wherever its quotes are. */
  lemma {:induction false} BodyReadsBack(arg: string, n: nat, tail: string, word: string)
    requires Ends(tail)
    ensures Arguments(Body(arg, n) + tail, Some(word), true)
            == Arguments(tail, Some(word + Backslashes(n) + arg), false)
    decreases |arg|
  {
    hide Arguments;
    if arg == "" {
      EvenRun(n, tail, word);
      assert word + Backslashes(n) + arg == word + Backslashes(n);
    } else {
      var rest := arg[1..];
      assert arg == [arg[0]] + rest;
      if arg[0] == '\\' {
        BodyReadsBack(rest, n + 1, tail, word);
        BackslashesAppend(n);
        assert word + Backslashes(n + 1) + rest == word + Backslashes(n) + arg;
      } else if arg[0] == '"' {
        var more := Body(rest, 0) + tail;
        assert Body(arg, n) + tail == Backslashes(2 * n + 1) + "\"" + more;
        OddRun(n, more, word);
        BodyReadsBack(rest, 0, tail, word + Backslashes(n) + "\"");
        assert word + Backslashes(n) + "\"" + Backslashes(0) + rest == word + Backslashes(n) + arg;
      } else {
        var more := Body(rest, 0) + tail;
        assert Body(arg, n) + tail == Backslashes(n) + ([arg[0]] + more);
        LiteralRun(n, [arg[0]] + more, word, true);
        OneCharacter(arg[0], more, word + Backslashes(n));
        BodyReadsBack(rest, 0, tail, word + Backslashes(n) + [arg[0]]);
        assert word + Backslashes(n) + [arg[0]] + Backslashes(0) + rest == word + Backslashes(n) + arg;
      }
    }
  }

  lemma PlainRun(arg: string, n: nat, tail: string, word: Option<string>)
    requires Plain(arg) && Ends(tail) && n == Run(arg) > 0
    ensures Arguments(arg + tail, word, false) == Arguments(arg[n..] + tail, Some(Text(word) + Backslashes(n)), false)
  {
    hide Run;
    var s, rest := arg + tail, arg[n..] + tail;
    assert arg[..n] + arg[n..] == arg;
    assert s == Backslashes(n) + rest;
    RunOf(n, rest);
    assert s[n..] == rest;
  }

  lemma PlainCharacter(arg: string, tail: string, word: Option<string>)
    requires Plain(arg) && arg[0] != '\\'
    ensures Arguments(arg + tail, word, false) == Arguments(arg[1..] + tail, Some(Text(word) + [arg[0]]), false)
  {
    var s := arg + tail;
    assert Run(s) == 0;
    assert s[1..] == arg[1..] + tail;
    assert s[0] == arg[0];
  }

  /** An argument that needs no quotes reads back as it is. */
  lemma {:induction false} PlainReadsBack(arg: string, tail: string, word: Option<string>)
    requires Plain(arg) && Ends(tail)
    ensures Arguments(arg + tail, word, false) == Arguments(tail, Some(Text(word) + arg), false)
    decreases |arg|
  {
    hide Arguments;
    var s := arg + tail;
    var n := Run(arg);
    if n > 0 {
      var rest := arg[n..];
      PlainRun(arg, n, tail, word);
      if rest == "" {
        assert rest + tail == tail;
        assert arg == arg[..n] == Backslashes(n);
      } else {
        PlainReadsBack(rest, tail, Some(Text(word) + Backslashes(n)));
        assert Text(word) + Backslashes(n) + rest == Text(word) + arg;
      }
    } else {
      var rest := arg[1..];
      PlainCharacter(arg, tail, word);
      assert Text(word) + [arg[0]] + rest == Text(word) + arg;
      if rest == "" {
        assert rest + tail == tail && arg == [arg[0]];
      } else {
        PlainReadsBack(rest, tail, Some(Text(word) + [arg[0]]));
      }
    }
  }

  lemma QuoteOpens(more: string)
    ensures Arguments("\"" + more, None, false) == Arguments(more, Some(""), true)
  {
    var s := "\"" + more;
    assert s[1..] == more;
  }

  lemma ArgReadsBack(arg: string, tail: string)
    requires Ends(tail)
    ensures Arguments(WindowsArg(arg) + tail, None, false) == Arguments(tail, Some(arg), false)
  {
    hide Arguments; hide Ends; hide Body;
    if Plain(arg) {
      PlainReadsBack(arg, tail, None);
      assert "" + arg == arg;
    } else {
      var more := Body(arg, 0) + tail;
      assert WindowsArg(arg) + tail == "\"" + more;
      QuoteOpens(more);
      BodyReadsBack(arg, 0, tail, "");
      assert "" + Backslashes(0) + arg == arg;
    }
  }

  function WindowsArgs(args: seq<string>): (words: seq<string>)
    ensures |words| == |args|
  {
    if args == [] then [] else [WindowsArg(args[0])] + WindowsArgs(args[1..])
  }

  lemma NextArgument(word: string, rest: string)
    ensures Arguments(" " + rest, Some(word), false) == [word] + Arguments(rest, None, false)
    ensures Arguments("", Some(word), false) == [word]
    ensures Arguments("", None, false) == []
  {
    assert (" " + rest)[1..] == rest;
  }

  /** Every argument list survives, empty strings and trailing backslashes included. */
  lemma {:induction false} WindowsRoundTrip(args: seq<string>)
    ensures Arguments(Join(WindowsArgs(args)), None, false) == args
    decreases |args|
  {
    hide WindowsArg; hide Arguments;
    if args == [] {
      NextArgument("", "");
    } else {
      var rest := WindowsArgs(args[1..]);
      assert WindowsArgs(args)[1..] == rest;
      assert [args[0]] + args[1..] == args;
      NextArgument(args[0], Join(rest));
      if |args| == 1 {
        assert args == [args[0]];
        assert WindowsArg(args[0]) + "" == WindowsArg(args[0]);
        ArgReadsBack(args[0], "");
      } else {
        WindowsRoundTrip(args[1..]);
        var tail := " " + Join(rest);
        assert Join(WindowsArgs(args)) == WindowsArg(args[0]) + tail;
        ArgReadsBack(args[0], tail);
      }
    }
  }

  // ---- PowerShell ----

  /** Any of these ends a single-quoted PowerShell string. */
  predicate IsSingleQuote(c: char) {
    c == '\'' || c == '\U{2018}' || c == '\U{2019}' || c == '\U{201A}' || c == '\U{201B}'
  }

  function Doubled(s: string): string {
    if s == "" then ""
    else if IsSingleQuote(s[0]) then [s[0], s[0]] + Doubled(s[1..])
    else [s[0]] + Doubled(s[1..])
  }

  function StringLiteral(s: string): string {
    "'" + Doubled(s) + "'"
  }

  method PowershellQuote(s: string) returns (quoted: string)
    ensures quoted == StringLiteral(s)
  {
    quoted := "'";
    assert s[0..] == s;
    for i := 0 to |s|
      invariant quoted + Doubled(s[i..]) == "'" + Doubled(s)
    {
      assert s[i..][1..] == s[i + 1..];
      if IsSingleQuote(s[i]) {
        quoted := quoted + [s[i]];
      }
      quoted := quoted + [s[i]];
    }
    quoted := quoted + "'";
  }

  /** The literal a script continues with after an opening quote, and what follows it. */
  function Literal(s: string, text: string): (r: Option<(string, string)>)
    ensures r.Some? ==> |r.value.1| < |s|
    decreases |s|
  {
    if s == "" then None
    else if !IsSingleQuote(s[0]) then Literal(s[1..], text + [s[0]])
    else if |s| > 1 && IsSingleQuote(s[1]) then Literal(s[2..], text + [s[0]])
    else Some((text, s[1..]))
  }

  lemma {:induction false} LiteralReadsBack(s: string, after: string, text: string)
    requires after == "" || !IsSingleQuote(after[0])
    ensures Literal(Doubled(s) + "'" + after, text) == Some((text + s, after))
    decreases |s|
  {
    var script := Doubled(s) + "'" + after;
    if s == "" {
      assert script == "'" + after;
      assert script[1..] == after && text + s == text;
    } else {
      var rest := Doubled(s[1..]) + "'" + after;
      LiteralReadsBack(s[1..], after, text + [s[0]]);
      assert text + [s[0]] + s[1..] == text + s;
      if IsSingleQuote(s[0]) {
        assert script == [s[0], s[0]] + rest;
        assert script[2..] == rest;
      } else {
        assert script == [s[0]] + rest;
        assert script[1..] == rest;
      }
    }
  }

  // ---- the start script ----

  const STOP := "Stop"
  const PREFERENCE := "$ErrorActionPreference = "
  const FILE_NAME := "; try { $psi = [System." + ("Diagnostics.ProcessStart" + ("Info]::new(); " + "$psi.FileName = "))
  const ARGUMENTS := "; $psi.Arguments = "
  const START := "; $psi.UseShellExecute = " + ("$false; $p = [System." + ("Diagnostics.Process]::" + "Start($psi); "))
  const EXIT := "$p.WaitForExit(); exit $p.Ex" + ("itCode } catch { [Console]" + ("::Error.WriteLine($_.Exc" + "eption.Message); exit 1 }"))

  function Executable(argv: seq<string>): string {
    if argv == [] then "" else argv[0]
  }

  function ArgumentList(argv: seq<string>): seq<string> {
    if argv == [] then [] else argv[1..]
  }

  /** What the client sends a PowerShell to start a program. */
  function StartScript(argv: seq<string>): string {
    PREFERENCE + (StringLiteral(STOP) + (FILE_NAME + (StringLiteral(Executable(argv)) + (ARGUMENTS
    + (StringLiteral(Join(WindowsArgs(ArgumentList(argv)))) + (START + EXIT))))))
  }

  /** A script as PowerShell reads it, as far as this one goes: code, and single-quoted strings in it. */
  datatype Piece = Code(code: string) | Str(text: string)

  function Pieces(s: string, code: string): Option<seq<Piece>>
    decreases |s|
  {
    if s == "" then Some([Code(code)])
    else if !IsSingleQuote(s[0]) then Pieces(s[1..], code + [s[0]])
    else
      match Literal(s[1..], "")
      case None => None
      case Some((text, after)) =>
        match Pieces(after, "")
        case None => None
        case Some(more) => Some([Code(code), Str(text)] + more)
  }

  predicate NoQuote(s: string) {
    forall i :: 0 <= i < |s| ==> !IsSingleQuote(s[i])
  }

  lemma {:induction false} CodeIsRead(s: string, after: string, code: string)
    requires NoQuote(s)
    ensures Pieces(s + after, code) == Pieces(after, code + s)
    decreases |s|
  {
    if s == "" {
      assert s + after == after && code + s == code;
    } else {
      assert (s + after)[1..] == s[1..] + after;
      assert code + [s[0]] + s[1..] == code + s;
      CodeIsRead(s[1..], after, code + [s[0]]);
    }
  }

  lemma LiteralIsRead(s: string, after: string, code: string)
    requires after != "" && !IsSingleQuote(after[0]) && Pieces(after, "").Some?
    ensures Pieces(StringLiteral(s) + after, code) == Some([Code(code), Str(s)] + Pieces(after, "").value)
  {
    hide Doubled;
    var script := StringLiteral(s) + after;
    assert script[1..] == Doubled(s) + "'" + after;
    LiteralReadsBack(s, after, "");
    assert "" + s == s;
  }

  /** A stretch of code, the string after it, and what follows. */
  lemma CodeAndLiteral(code: string, s: string, after: string)
    requires NoQuote(code) && after != "" && !IsSingleQuote(after[0]) && Pieces(after, "").Some?
    ensures Pieces(code + (StringLiteral(s) + after), "") == Some([Code(code), Str(s)] + Pieces(after, "").value)
  {
    hide Pieces; hide StringLiteral;
    CodeIsRead(code, StringLiteral(s) + after, "");
    assert "" + code == code;
    LiteralIsRead(s, after, code);
  }

  lemma NoQuoteConcat(a: string, b: string)
    requires NoQuote(a) && NoQuote(b)
    ensures NoQuote(a + b)
  {
  }

  lemma FourWithoutQuote(a: string, b: string, c: string, d: string)
    requires NoQuote(a) && NoQuote(b) && NoQuote(c) && NoQuote(d)
    ensures NoQuote(a + (b + (c + d)))
  {
    hide NoQuote;
    NoQuoteConcat(c, d);
    NoQuoteConcat(b, c + d);
    NoQuoteConcat(a, b + (c + d));
  }

  lemma FileNameHasNoQuote()
    ensures NoQuote(PREFERENCE) && NoQuote(FILE_NAME) && NoQuote(ARGUMENTS)
  {
    FourWithoutQuote("; try { $psi = [System.", "Diagnostics.ProcessStart", "Info]::new(); ", "$psi.FileName = ");
  }

  lemma StartHasNoQuote()
    ensures NoQuote(START)
  {
    FourWithoutQuote("; $psi.UseShellExecute = ", "$false; $p = [System.", "Diagnostics.Process]::", "Start($psi); ");
  }

  lemma ExitHasNoQuote()
    ensures NoQuote(EXIT)
  {
    FourWithoutQuote("$p.WaitForExit(); exit $p.Ex", "itCode } catch { [Console]", "::Error.WriteLine($_.Exc", "eption.Message); exit 1 }");
  }

  lemma CodeStarts(code: string, after: string)
    requires NoQuote(code) && code != ""
    ensures code + after != "" && !IsSingleQuote((code + after)[0]) && !IsSingleQuote(code[0])
  {
  }

  lemma LastCode(code: string)
    requires NoQuote(code)
    ensures Pieces(code, "") == Some([Code(code)])
  {
    CodeIsRead(code, "", "");
    assert code + "" == code && "" + code == code;
  }

  /**
   The start script, read by PowerShell, is the code it is meant to be around three strings: the
   second is the executable, and the third is read by the program as exactly its arguments.
   */
  lemma PowershellRoundTrip(argv: seq<string>)
    ensures var line := Join(WindowsArgs(ArgumentList(argv)));
            && Pieces(StartScript(argv), "") == Some([Code(PREFERENCE), Str(STOP), Code(FILE_NAME), Str(Executable(argv)),
                                                      Code(ARGUMENTS), Str(line), Code(START + EXIT)])
            && Arguments(line, None, false) == ArgumentList(argv)
  {
    hide Pieces; hide StringLiteral; hide WindowsArgs; hide Join; hide Arguments; hide NoQuote;
    var line := Join(WindowsArgs(ArgumentList(argv)));
    WindowsRoundTrip(ArgumentList(argv));
    FileNameHasNoQuote();
    StartHasNoQuote();
    ExitHasNoQuote();
    NoQuoteConcat(START, EXIT);
    TheScriptReads(Executable(argv), line, PREFERENCE, FILE_NAME, ARGUMENTS, START + EXIT);
  }

  lemma SevenPieces<T>(a: T, b: T, c: T, d: T, e: T, f: T, g: T)
    ensures [a, b] + ([c, d] + ([e, f] + [g])) == [a, b, c, d, e, f, g]
  {
  }

  lemma CodeThenLiteral(code: string, s: string, after: string, more: seq<Piece>)
    requires NoQuote(code) && after != "" && !IsSingleQuote(after[0]) && Pieces(after, "") == Some(more)
    ensures Pieces(code + (StringLiteral(s) + after), "") == Some([Code(code), Str(s)] + more)
  {
    hide Pieces; hide StringLiteral; hide NoQuote; hide IsSingleQuote;
    CodeAndLiteral(code, s, after);
  }

  /** Four stretches of code and three strings, read back. */
  lemma TheScriptReads(executable: string, line: string, a: string, b: string, c: string, d: string)
    requires NoQuote(a) && NoQuote(b) && NoQuote(c) && NoQuote(d) && b != "" && c != "" && d != ""
    ensures Pieces(a + (StringLiteral(STOP) + (b + (StringLiteral(executable) + (c + (StringLiteral(line) + d))))), "")
            == Some([Code(a), Str(STOP), Code(b), Str(executable), Code(c), Str(line), Code(d)])
  {
    hide Pieces; hide StringLiteral; hide NoQuote; hide IsSingleQuote;
    LastCode(d);
    CodeStarts(d, "");
    CodeThenLiteral(c, line, d, [Code(d)]);
    var third := c + (StringLiteral(line) + d);
    CodeStarts(c, StringLiteral(line) + d);
    CodeThenLiteral(b, executable, third, [Code(c), Str(line)] + [Code(d)]);
    var second := b + (StringLiteral(executable) + third);
    CodeStarts(b, StringLiteral(executable) + third);
    CodeThenLiteral(a, STOP, second, [Code(b), Str(executable)] + ([Code(c), Str(line)] + [Code(d)]));
    SevenPieces(Code(a), Str(STOP), Code(b), Str(executable), Code(c), Str(line), Code(d));
  }
}

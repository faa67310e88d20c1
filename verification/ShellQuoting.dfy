/** Quoting for the shell, against the shell's own word reader. */
module ShellQuoting {
  import opened Text

  // ---------------------------------------------------------------------------------------
  // The word reader: sections 2.2.1, 2.2.2 and 2.3 of the POSIX.1-2017 Shell Command Language
  // ---------------------------------------------------------------------------------------

  datatype Mode = Plain | Escaped | Quoted

  /** Finished words, the word being read if any, and how the next character is taken. */
  datatype Reader = Reader(words: seq<string>, word: Option<string>, mode: Mode) | Stuck

  /** Characters with a meaning of their own when unquoted; the reader gives up on them. */
  predicate Special(c: char) {
    c in "|&;<>()$`\"*?[]#~=%!{}\n"
  }

  function Grow(word: Option<string>, c: char): Option<string> {
    Some((if word.Some? then word.value else "") + [c])
  }

  function Step(r: Reader, c: char): Reader {
    match r
    case Stuck => Stuck
    case Reader(words, word, mode) =>
      if c == '\0' then Stuck
      else match mode
        case Quoted => if c == '\'' then r.(mode := Plain) else r.(word := Grow(word, c))
        case Escaped => if c == '\n' then r.(mode := Plain) else Reader(words, Grow(word, c), Plain)
        case Plain =>
          if c == '\'' then Reader(words, Some(if word.Some? then word.value else ""), Quoted)
          else if c == '\\' then r.(mode := Escaped)
          else if c == ' ' || c == '\t' then (if word.Some? then Reader(words + [word.value], None, Plain) else r)
          else if Special(c) then Stuck
          else r.(word := Grow(word, c))
  }

  function Run(r: Reader, s: string): Reader
    decreases |s|
  {
    if s == "" then r else Run(Step(r, s[0]), s[1..])
  }

  /** The words of a command line, if it is made of quoting, blanks and ordinary characters alone. */
  function Words(s: string): Option<seq<string>> {
    var r := Run(Reader([], None, Plain), s);
    if r.Stuck? || r.mode != Plain then None
    else Some(r.words + if r.word.Some? then [r.word.value] else [])
  }

  // ---------------------------------------------------------------------------------------
  // Quoting
  // ---------------------------------------------------------------------------------------

  /** Inside quotes a quote closes, is escaped, and opens again; everything else stands for itself. */
  function First(c: char): string {
    if c == '\'' then "'\\''" else [c]
  }

  function Escape(s: string): string {
    if s == "" then "" else First(s[0]) + Escape(s[1..])
  }

  function Quote(s: string): string {
    "'" + Escape(s) + "'"
  }

  function CommandLine(args: seq<string>): string {
    if args == [] then "" else if |args| == 1 then Quote(args[0]) else CommandLine(args[..|args| - 1]) + " " + Quote(args[|args| - 1])
  }

  predicate NulFree(s: string) {
    '\0' !in s
  }

  lemma {:induction false} RunAppend(r: Reader, a: string, b: string)
    ensures Run(r, a + b) == Run(Run(r, a), b)
    decreases |a|
  {
    hide Step;
    if a == "" {
      assert a + b == b;
    } else {
      assert (a + b)[1..] == a[1..] + b;
      RunAppend(Step(r, a[0]), a[1..], b);
    }
  }

  lemma RunOne(r: Reader, c: char)
    ensures Run(r, [c]) == Step(r, c)
  {
    hide Step;
    assert [c][1..] == "";
    assert Run(Step(r, c), "") == Step(r, c);
  }

  /** A quote inside quotes: close, escape, open again. */
  lemma RunEscapedQuote(words: seq<string>, w: string)
    ensures Run(Reader(words, Some(w), Quoted), "'\\''") == Reader(words, Some(w + "'"), Quoted)
  {
    var r := Reader(words, Some(w), Quoted);
    var s := "'\\''";
    assert s[1..] == "\\''" && s[1..][1..] == "''" && s[1..][1..][1..] == "'" && s[1..][1..][1..][1..] == "";
    var r1 := Step(r, '\'');
    var r2 := Step(r1, '\\');
    var r3 := Step(r2, '\'');
    var r4 := Step(r3, '\'');
    assert Run(r, s) == Run(r1, s[1..]) == Run(r2, s[1..][1..]) == Run(r3, s[1..][1..][1..]) == Run(r4, s[1..][1..][1..][1..]) == r4;
  }

  lemma {:induction false} RunEscape(words: seq<string>, w: string, s: string)
    requires NulFree(s)
    ensures Run(Reader(words, Some(w), Quoted), Escape(s)) == Reader(words, Some(w + s), Quoted)
    decreases |s|
  {
    hide Run;
    if s == "" {
      assert w + s == w;
      RunNothing(Reader(words, Some(w), Quoted));
    } else {
      var r := Reader(words, Some(w), Quoted);
      var first := First(s[0]);
      assert Run(r, first) == Reader(words, Some(w + [s[0]]), Quoted) by {
        if s[0] == '\'' { RunEscapedQuote(words, w); } else { RunOne(r, s[0]); }
      }
      RunAppend(r, first, Escape(s[1..]));
      RunEscape(words, w + [s[0]], s[1..]);
      assert w + [s[0]] + s[1..] == w + s;
    }
  }

  lemma RunNothing(r: Reader)
    ensures Run(r, "") == r
  {
  }

  /** A quoted argument is read as one word. */
  lemma RunQuote(words: seq<string>, s: string)
    requires NulFree(s)
    ensures Run(Reader(words, None, Plain), Quote(s)) == Reader(words, Some(s), Plain)
  {
    hide Run, Escape;
    var r := Reader(words, None, Plain);
    RunAppend(r, "'" + Escape(s), "'");
    RunAppend(r, "'", Escape(s));
    RunOne(r, '\'');
    assert Step(r, '\'') == Reader(words, Some(""), Quoted);
    RunEscape(words, "", s);
    assert "" + s == s;
    RunOne(Reader(words, Some(s), Quoted), '\'');
  }

  lemma {:induction false} RunJoin(args: seq<string>)
    requires args != [] && forall a | a in args :: NulFree(a)
    ensures Run(Reader([], None, Plain), CommandLine(args)) == Reader(args[..|args| - 1], Some(args[|args| - 1]), Plain)
  {
    hide Run, Quote, NulFree;
    var init, last := args[..|args| - 1], args[|args| - 1];
    var r := Reader([], None, Plain);
    if |args| == 1 {
      assert args[..0] == [];
      RunQuote([], last);
    } else {
      RunJoin(init);
      RunAppend(r, CommandLine(init) + " ", Quote(last));
      RunAppend(r, CommandLine(init), " ");
      RunOne(Run(r, CommandLine(init)), ' ');
      assert init[..|init| - 1] + [init[|init| - 1]] == init;
      RunQuote(init, last);
    }
  }

  lemma {:induction false} NulSticks(r: Reader, s: string)
    requires '\0' in s || r.Stuck?
    ensures Run(r, s).Stuck?
    decreases |s|
  {
    if s != "" {
      NulSticks(Step(r, s[0]), s[1..]);
    }
  }

  lemma {:induction false} EscapeKeepsNul(s: string)
    requires '\0' in s
    ensures '\0' in Escape(s)
  {
    if s[0] != '\0' { EscapeKeepsNul(s[1..]); }
  }

  lemma {:induction false} JoinKeepsNul(args: seq<string>, a: string)
    requires a in args && '\0' in a
    ensures '\0' in CommandLine(args)
  {
    hide Escape;
    var last := args[|args| - 1];
    if a == last {
      EscapeKeepsNul(a);
      assert '\0' in Quote(last);
    } else {
      assert args == args[..|args| - 1] + [last];
      JoinKeepsNul(args[..|args| - 1], a);
    }
  }

  lemma ReadsBack(args: seq<string>)
    requires forall a | a in args :: NulFree(a)
    ensures Words(CommandLine(args)) == Some(args)
  {
    hide Run, CommandLine, NulFree;
    if args == [] {
      JoinNothing();
      RunNothing(Reader([], None, Plain));
      var none: seq<string> := [];
      assert none + [] == args;
    } else {
      var init, last := args[..|args| - 1], args[|args| - 1];
      RunJoin(args);
      assert Run(Reader([], None, Plain), CommandLine(args)) == Reader(init, Some(last), Plain);
      assert init + [last] == args;
    }
  }

  /** The shell reads a joined argument list back as exactly that list, precisely when no argument holds a NUL. */
  lemma JoinRoundTripIffNulFree(args: seq<string>)
    ensures Words(CommandLine(args)) == Some(args) <==> forall a | a in args :: NulFree(a)
  {
    hide Run, CommandLine;
    if forall a | a in args :: NulFree(a) {
      ReadsBack(args);
    } else {
      var a :| a in args && '\0' in a;
      JoinKeepsNul(args, a);
      NulSticks(Reader([], None, Plain), CommandLine(args));
    }
  }

  lemma JoinNothing()
    ensures CommandLine([]) == ""
  {
  }

  /** What may follow a quoted argument: nothing, or a blank and more. */
  predicate Follows(tail: string) {
    tail == "" || tail[0] == ' '
  }

  /** The closing quote of an argument is found without reading on. */
  lemma {:induction false} EscapeEnds(a: string, ta: string, b: string, tb: string)
    requires Follows(ta) && Follows(tb) && Escape(a) + "'" + ta == Escape(b) + "'" + tb
    ensures a == b && ta == tb
  {
    var x, y := Escape(a) + "'" + ta, Escape(b) + "'" + tb;
    if a != "" && b != "" {
      EscapeHead(a, ta);
      EscapeHead(b, tb);
      var k := if a[0] == '\'' then 4 else 1;
      assert a[0] == b[0];
      assert x[k..] == Escape(a[1..]) + "'" + ta && y[k..] == Escape(b[1..]) + "'" + tb;
      EscapeEnds(a[1..], ta, b[1..], tb);
      assert a == [a[0]] + a[1..] && b == [b[0]] + b[1..];
    } else {
      NotEmpty(a, ta);
      NotEmpty(b, tb);
      assert ta == ("'" + ta)[1..] && tb == ("'" + tb)[1..];
    }
  }

  lemma EscapeFirst(a: string)
    requires a != ""
    ensures Escape(a) == First(a[0]) + Escape(a[1..])
  {
  }

  lemma FirstShape(c: char)
    ensures |First(c)| == (if c == '\'' then 4 else 1) && First(c)[0] == c
  {
  }

  lemma EscapeHead(a: string, t: string)
    requires a != ""
    ensures var x, k := Escape(a) + "'" + t, if a[0] == '\'' then 4 else 1;
            |x| > k && x[0] == a[0] && x[k..] == Escape(a[1..]) + "'" + t
  {
    hide Escape, First;
    var rest := Escape(a[1..]) + "'" + t;
    EscapeFirst(a);
    FirstShape(a[0]);
    assert Escape(a) + "'" + t == First(a[0]) + rest;
  }

  /** An argument that is not empty does not look like the end of one. */
  lemma NotEmpty(a: string, t: string)
    ensures a == "" ==> Escape(a) + "'" + t == "'" + t
    ensures a != "" ==> forall u | Follows(u) :: Escape(a) + "'" + t != "'" + u
  {
    if a != "" {
      var x := Escape(a) + "'" + t;
      if a[0] == '\'' {
        assert x[1] == '\\';
        forall u | Follows(u) ensures x != "'" + u { assert |u| > 0 ==> ("'" + u)[1] == u[0]; }
      } else {
        assert x[0] == a[0];
      }
    }
  }

  function Remainder(args: seq<string>): string {
    if args == [] then "" else " " + CommandLine(args)
  }

  lemma LineFromRight(args: seq<string>)
    requires |args| > 1
    ensures CommandLine(args) == CommandLine(args[..|args| - 1]) + " " + Quote(args[|args| - 1])
  {
    hide Quote;
  }

  lemma LineOfOne(args: seq<string>)
    requires |args| == 1
    ensures CommandLine(args) == Quote(args[0]) && Remainder(args[1..]) == ""
  {
    hide Quote;
  }

  lemma RemainderFromRight(args: seq<string>)
    requires args != []
    ensures Remainder(args) == Remainder(args[..|args| - 1]) + " " + Quote(args[|args| - 1])
  {
    hide Quote, CommandLine;
    if |args| == 1 {
      LineOfOne(args);
      assert args[..0] == [];
    } else {
      LineFromRight(args);
    }
  }

  lemma {:induction false} LineFromLeft(args: seq<string>)
    requires args != []
    ensures CommandLine(args) == Quote(args[0]) + Remainder(args[1..])
  {
    hide Quote, CommandLine, Remainder;
    if |args| > 1 {
      var init, last, rest := args[..|args| - 1], args[|args| - 1], args[1..];
      LineFromLeft(init);
      LineFromRight(args);
      RemainderFromRight(rest);
      assert rest[..|rest| - 1] == init[1..] && rest[|rest| - 1] == last;
    } else {
      LineOfOne(args);
    }
  }

  lemma QuoteOpens(a: string, t: string)
    ensures (Quote(a) + t)[1..] == Escape(a) + "'" + t
  {
    hide Escape;
  }

  lemma FirstAgrees(a: seq<string>, b: seq<string>)
    requires a != [] && b != [] && CommandLine(a) == CommandLine(b)
    ensures a[0] == b[0] && Remainder(a[1..]) == Remainder(b[1..])
  {
    hide Escape, CommandLine, Quote;
    LineFromLeft(a);
    LineFromLeft(b);
    var ta, tb := Remainder(a[1..]), Remainder(b[1..]);
    QuoteOpens(a[0], ta);
    QuoteOpens(b[0], tb);
    EscapeEnds(a[0], ta, b[0], tb);
  }

  lemma RestAgrees(a: seq<string>, b: seq<string>)
    requires Remainder(a) == Remainder(b)
    ensures CommandLine(a) == CommandLine(b)
  {
    hide CommandLine;
    if a != [] {
      assert Remainder(a)[1..] == CommandLine(a);
      assert b != [];
      assert Remainder(b)[1..] == CommandLine(b);
    }
  }

  /** Different argument lists never share a command line. */
  lemma {:induction false} JoinInjective(a: seq<string>, b: seq<string>)
    requires CommandLine(a) == CommandLine(b)
    ensures a == b
  {
    hide CommandLine, Remainder;
    LineIsEmpty(a);
    LineIsEmpty(b);
    if a != [] {
      FirstAgrees(a, b);
      RestAgrees(a[1..], b[1..]);
      JoinInjective(a[1..], b[1..]);
      assert a == [a[0]] + a[1..] && b == [b[0]] + b[1..];
    }
  }

  lemma LineIsEmpty(args: seq<string>)
    ensures CommandLine(args) == "" <==> args == []
  {
    hide Escape;
    if args != [] { LineFromLeft(args); }
  }

  // ---------------------------------------------------------------------------------------
  // Wrapping a command for the devcontainer
  // ---------------------------------------------------------------------------------------

  function Tokens(folder: string, cmd: string): seq<string> {
    ["devcontainer", "exec", "--workspace-folder", folder, "bash", "-lc", cmd]
  }

  function Wrap(folder: string, cmd: string): string {
    CommandLine(Tokens(folder, cmd))
  }

  lemma FixedTokens()
    ensures NulFree("devcontainer") && NulFree("exec") && NulFree("--workspace-folder") && NulFree("bash") && NulFree("-lc")
  {
  }

  /** A wrapped command is seven words: the fourth is the folder and the last the original command. */
  lemma WrapIsSevenWords(folder: string, cmd: string)
    requires NulFree(folder) && NulFree(cmd)
    ensures Words(Wrap(folder, cmd)) == Some(["devcontainer", "exec", "--workspace-folder", folder, "bash", "-lc", cmd])
  {
    hide Words, CommandLine, NulFree;
    FixedTokens();
    JoinRoundTripIffNulFree(Tokens(folder, cmd));
  }

  lemma {:induction false} EscapeNulFree(s: string)
    requires NulFree(s)
    ensures NulFree(Escape(s))
  {
    if s != "" { EscapeNulFree(s[1..]); }
  }

  lemma {:induction false} JoinNulFree(args: seq<string>)
    requires forall a | a in args :: NulFree(a)
    ensures NulFree(CommandLine(args))
  {
    hide Escape;
    if args != [] {
      EscapeNulFree(args[|args| - 1]);
      assert NulFree(Quote(args[|args| - 1]));
      if |args| > 1 { JoinNulFree(args[..|args| - 1]); }
    }
  }

  /** Wrapped again for every folder, the innermost first. */
  function WrapAll(folders: seq<string>, cmd: string): string {
    if folders == [] then cmd else Wrap(folders[0], WrapAll(folders[1..], cmd))
  }

  /** Takes `n` layers off, reading each as the shell does. */
  function Unwrap(n: nat, s: string): Option<(seq<string>, string)> {
    if n == 0 then Some(([], s))
    else
      var ws := Words(s);
      if ws.Some? && |ws.value| == 7 && ws.value == Tokens(ws.value[3], ws.value[6]) then
        var inner := Unwrap(n - 1, ws.value[6]);
        if inner.Some? then Some(([ws.value[3]] + inner.value.0, inner.value.1)) else None
      else None
  }

  /** However deeply wrapped, the folders and the command come back unchanged. */
  lemma {:induction false} NestedWrapping(folders: seq<string>, cmd: string)
    requires NulFree(cmd) && forall f | f in folders :: NulFree(f)
    ensures NulFree(WrapAll(folders, cmd))
    ensures Unwrap(|folders|, WrapAll(folders, cmd)) == Some((folders, cmd))
  {
    hide Words, CommandLine, NulFree;
    if folders != [] {
      var inner := WrapAll(folders[1..], cmd);
      assert folders[0] in folders;
      NestedWrapping(folders[1..], cmd);
      WrapIsSevenWords(folders[0], inner);
      FixedTokens();
      JoinNulFree(Tokens(folders[0], inner));
      assert [folders[0]] + folders[1..] == folders;
    }
  }

  // ---------------------------------------------------------------------------------------
  // The loops of the code
  // ---------------------------------------------------------------------------------------

  function Spaced(quoted: seq<string>): string {
    if quoted == [] then "" else if |quoted| == 1 then quoted[0] else Spaced(quoted[..|quoted| - 1]) + " " + quoted[|quoted| - 1]
  }

  lemma {:induction false} SpacedQuotes(args: seq<string>, quoted: seq<string>)
    requires |args| == |quoted| && forall i | 0 <= i < |args| :: quoted[i] == Quote(args[i])
    ensures Spaced(quoted) == CommandLine(args)
  {
    hide Quote;
    if |args| > 1 { SpacedQuotes(args[..|args| - 1], quoted[..|args| - 1]); }
  }

  method JoinShell(args: seq<string>) returns (line: string)
    ensures line == CommandLine(args)
    ensures Words(line) == Some(args) <==> forall a | a in args :: NulFree(a)
  {
    hide Quote, Words, CommandLine, Spaced;
    var out := new string[|args|];
    for i := 0 to |args|
      invariant forall j | 0 <= j < i :: out[j] == Quote(args[j])
    {
      out[i] := Quote(args[i]);
    }
    SpacedQuotes(args, out[..]);
    line := Spaced(out[..]);
    JoinRoundTripIffNulFree(args);
  }

  method WrapDevcontainerExec(folder: string, cmd: string) returns (line: string)
    ensures line == Wrap(folder, cmd)
    ensures NulFree(folder) && NulFree(cmd) ==>
              Words(line) == Some(["devcontainer", "exec", "--workspace-folder", folder, "bash", "-lc", cmd])
  {
    hide Quote, Words, CommandLine, Spaced;
    var tokens := Tokens(folder, cmd);
    var quoted := new string[|tokens|];
    for i := 0 to |tokens|
      invariant forall j | 0 <= j < i :: quoted[j] == Quote(tokens[j])
    {
      quoted[i] := Quote(tokens[i]);
    }
    SpacedQuotes(tokens, quoted[..]);
    line := Spaced(quoted[..]);
    if NulFree(folder) && NulFree(cmd) { WrapIsSevenWords(folder, cmd); }
  }
}

/**
 Quoting of Windows command-line arguments (WindowsStyleQuote and AppendArgNative in
 src/base3/command_line.cc), against the parsing rules that the quoting follows.
 */
module CommandLine {

  type Text = seq<char>

  const SPACE := ' '
  const TAB := '\t'
  const QUOTE := '"'
  const BACKSLASH := '\\'

  function Backslashes(n: nat): (b: Text)
    ensures |b| == n && forall i :: 0 <= i < n ==> b[i] == BACKSLASH
  {
    seq(n, _ => BACKSLASH)
  }

  /** The length of the run of backslashes at the front. */
  function Run(s: Text): (n: nat)
    ensures n <= |s| && s[..n] == Backslashes(n)
    ensures n < |s| ==> s[n] != BACKSLASH
  {
    if s == [] || s[0] != BACKSLASH then 0 else
      assert s[..1 + Run(s[1..])] == [s[0]] + s[1..][..Run(s[1..])];
      1 + Run(s[1..])
  }

  lemma {:induction false} RunOf(n: nat, t: Text)
    requires t == [] || t[0] != BACKSLASH
    ensures Run(Backslashes(n) + t) == n
  {
    if n > 0 {
      assert (Backslashes(n) + t)[1..] == Backslashes(n - 1) + t;
      RunOf(n - 1, t);
    } else {
      assert Backslashes(n) + t == t;
    }
  }

  // ----- Quoting -----

  predicate Special(c: char) {
    c == SPACE || c == BACKSLASH || c == QUOTE
  }

  predicate NeedsQuotes(arg: Text) {
    exists i :: 0 <= i < |arg| && Special(arg[i])
  }

  /** The part between the added quotes. */
  function Body(arg: Text): Text
    decreases |arg|
  {
    if arg == [] then []
    else if arg[0] == BACKSLASH then
      var n := Run(arg);
      (if n == |arg| || arg[n] == QUOTE then Backslashes(2 * n) else Backslashes(n)) + Body(arg[n..])
    else if arg[0] == QUOTE then [BACKSLASH, QUOTE] + Body(arg[1..])
    else [arg[0]] + Body(arg[1..])
  }

  function Quote(arg: Text): Text {
    if NeedsQuotes(arg) then [QUOTE] + Body(arg) + [QUOTE] else arg
  }

  lemma BodyOfNothing()
    ensures Body([]) == []
  {
  }

  lemma BodyStep(arg: Text, i: nat)
    requires i < |arg|
    ensures Body(arg[i..]) ==
            if arg[i] == BACKSLASH then
              var n := Run(arg[i..]);
              (if i + n == |arg| || arg[i + n] == QUOTE then Backslashes(2 * n) else Backslashes(n)) + Body(arg[i + n..])
            else if arg[i] == QUOTE then [BACKSLASH, QUOTE] + Body(arg[i + 1..])
            else [arg[i]] + Body(arg[i + 1..])
  {
    var s := arg[i..];
    assert s[1..] == arg[i + 1..] && s[Run(s)..] == arg[i + Run(s)..];
  }

  method WindowsStyleQuote(arg: Text) returns (out: Text)
    ensures out == Quote(arg)
  {
    var k := 0;
    while k < |arg| && !Special(arg[k])
      invariant 0 <= k <= |arg| && forall j :: 0 <= j < k ==> !Special(arg[j])
    {
      k := k + 1;
    }
    if k == |arg| {
      return arg;
    }
    out := Quoted(arg);
  }

  /** The loop over the argument, between the two added quotes. */
  method Quoted(arg: Text) returns (out: Text)
    ensures out == [QUOTE] + Body(arg) + [QUOTE]
  {
    hide Body, Run;
    out := [QUOTE];
    var i := 0;
    assert arg[0..] == arg;
    while i < |arg|
      invariant 0 <= i <= |arg|
      invariant out + Body(arg[i..]) == [QUOTE] + Body(arg)
    {
      ghost var rest := Body(arg[i..]);
      BodyStep(arg, i);
      if arg[i] == BACKSLASH {
        var end := i + 1;
        while end < |arg| && arg[end] == BACKSLASH
          invariant i < end <= |arg| && forall j :: i <= j < end ==> arg[j] == BACKSLASH
        {
          end := end + 1;
        }
        var backslashCount := end - i;
        RunBetween(arg, i, end);
        if end == |arg| || arg[end] == QUOTE {
          backslashCount := backslashCount * 2;
        }
        Regroup(out, Backslashes(backslashCount), Body(arg[end..]));
        out := PushBackslashes(out, backslashCount);
        i := end - 1;
      } else if arg[i] == QUOTE {
        Regroup(out, [BACKSLASH, QUOTE], Body(arg[i + 1..]));
        assert out + [BACKSLASH] + [QUOTE] == out + [BACKSLASH, QUOTE];
        out := out + [BACKSLASH];
        out := out + [QUOTE];
      } else {
        Regroup(out, [arg[i]], Body(arg[i + 1..]));
        out := out + [arg[i]];
      }
      i := i + 1;
    }
    BodyOfNothing();
    assert arg[i..] == [] && out + [] == out;
    out := out + [QUOTE];
  }

  method PushBackslashes(out: Text, count: nat) returns (out': Text)
    ensures out' == out + Backslashes(count)
  {
    out' := out;
    var j := 0;
    while j < count
      invariant 0 <= j <= count && out' == out + Backslashes(j)
    {
      out' := out' + [BACKSLASH];
      j := j + 1;
    }
  }

  lemma Regroup(a: Text, b: Text, c: Text)
    ensures a + (b + c) == a + b + c
  {
  }

  lemma RunBetween(arg: Text, start: nat, end: nat)
    requires start < end <= |arg| && forall j :: start <= j < end ==> arg[j] == BACKSLASH
    requires end < |arg| ==> arg[end] != BACKSLASH
    ensures Run(arg[start..]) == end - start
  {
    assert arg[start..] == Backslashes(end - start) + arg[end..];
    RunOf(end - start, arg[end..]);
  }

  // ----- Parsing -----

  /**
   The documented rules of CommandLineToArgvW for the arguments after the program:
   blanks separate arguments outside quotes; 2n backslashes before a quote are n
   backslashes and the quote delimits; 2n+1 are n backslashes and a literal quote;
   all other backslashes are literal. The current argument is tok, once started.
   */
  function Scan(s: Text, inQuotes: bool, tok: Text, started: bool): seq<Text>
    decreases |s|
  {
    if s == [] then Finished(tok, started)
    else if s[0] == BACKSLASH then
      var n := Run(s);
      if n < |s| && s[n] == QUOTE then
        if n % 2 == 0 then Scan(s[n + 1..], !inQuotes, tok + Backslashes(n / 2), true)
        else Scan(s[n + 1..], inQuotes, tok + Backslashes(n / 2) + [QUOTE], true)
      else Scan(s[n..], inQuotes, tok + Backslashes(n), true)
    else if s[0] == QUOTE then Scan(s[1..], !inQuotes, tok, true)
    else if !inQuotes && (s[0] == SPACE || s[0] == TAB) then Finished(tok, started) + Scan(s[1..], false, [], false)
    else Scan(s[1..], inQuotes, tok + [s[0]], true)
  }

  function Finished(tok: Text, started: bool): seq<Text> {
    if started then [tok] else []
  }

  /** The arguments as AppendArgNative puts them on the command line. */
  function Line(args: seq<Text>): Text {
    if args == [] then [] else [SPACE] + Quote(args[0]) + Line(args[1..])
  }

  function ParseArguments(line: Text): seq<Text> {
    Scan(line, false, [], false)
  }

  // ----- A quoted argument -----

  lemma ScanBackslashes(n: nat, t: Text, inQuotes: bool, tok: Text)
    requires n > 0 && (t == [] || t[0] != BACKSLASH)
    ensures Scan(Backslashes(n) + t, inQuotes, tok, true) ==
            if t != [] && t[0] == QUOTE then
              if n % 2 == 0 then Scan(t[1..], !inQuotes, tok + Backslashes(n / 2), true)
              else Scan(t[1..], inQuotes, tok + Backslashes(n / 2) + [QUOTE], true)
            else Scan(t, inQuotes, tok + Backslashes(n), true)
  {
    RunOf(n, t);
    var s := Backslashes(n) + t;
    assert s[n..] == t && (t != [] ==> s[n + 1..] == t[1..]);
  }

  lemma ScanQuote(rest: Text, tok: Text)
    ensures Scan([QUOTE] + rest, true, tok, true) == Scan(rest, false, tok, true)
  {
    assert ([QUOTE] + rest)[1..] == rest;
  }

  lemma ScanLiteral(c: char, rest: Text, tok: Text)
    requires c != BACKSLASH && c != QUOTE
    ensures Scan([c] + rest, true, tok, true) == Scan(rest, true, tok + [c], true)
  {
    assert ([c] + rest)[1..] == rest;
  }

  lemma BodyAtLiteral(arg: Text)
    requires arg != [] && arg[0] != BACKSLASH && arg[0] != QUOTE
    ensures Body(arg) == [arg[0]] + Body(arg[1..])
  {
  }

  lemma BodyAtQuote(r: Text)
    requires r != [] && r[0] == QUOTE
    ensures Body(r) == [BACKSLASH, QUOTE] + Body(r[1..])
  {
  }

  /** Between the added quotes the parser reads back exactly the argument. */
  lemma {:induction false} ScanBody(arg: Text, rest: Text, tok: Text)
    ensures Scan(Body(arg) + [QUOTE] + rest, true, tok, true) == Scan(rest, false, tok + arg, true)
    decreases |arg|
  {
    hide Scan, Body, Run;
    if arg == [] {
      BodyOfNothing();
      ScanQuote(rest, tok);
      assert [] + [QUOTE] + rest == [QUOTE] + rest && tok + arg == tok;
    } else if arg[0] == BACKSLASH {
      ScanBodyRun(arg, rest, tok);
    } else if arg[0] == QUOTE {
      var more := Body(arg[1..]) + [QUOTE] + rest;
      BodyAtQuote(arg);
      assert Body(arg) + [QUOTE] + rest == Backslashes(1) + ([QUOTE] + more);
      ScanBackslashes(1, [QUOTE] + more, true, tok);
      assert ([QUOTE] + more)[1..] == more;
      ScanBody(arg[1..], rest, tok + Backslashes(0) + [QUOTE]);
      assert tok + Backslashes(0) + [QUOTE] + arg[1..] == tok + arg;
    } else {
      var more := Body(arg[1..]) + [QUOTE] + rest;
      BodyAtLiteral(arg);
      assert Body(arg) + [QUOTE] + rest == [arg[0]] + more;
      ScanLiteral(arg[0], more, tok);
      ScanBody(arg[1..], rest, tok + [arg[0]]);
      assert tok + [arg[0]] + arg[1..] == tok + arg;
    }
  }

  lemma {:induction false} ScanBodyRun(arg: Text, rest: Text, tok: Text)
    requires arg != [] && arg[0] == BACKSLASH
    ensures Scan(Body(arg) + [QUOTE] + rest, true, tok, true) == Scan(rest, false, tok + arg, true)
    decreases |arg|, 0
  {
    var n, tail := Run(arg), [QUOTE] + rest;
    var r := arg[n..];
    assert arg == Backslashes(n) + r;
    assert Body(arg) + [QUOTE] + rest == Body(arg) + tail;
    if r == [] {
      RunAtEnd(n, rest, tok);
      assert Body(arg) + tail == Backslashes(2 * n) + tail && arg == Backslashes(n);
    } else if r[0] == QUOTE {
      RunAtQuote(n, r, rest, tok);
      ScanBody(r[1..], rest, tok + Backslashes(n) + [QUOTE]);
      assert tok + Backslashes(n) + [QUOTE] + r[1..] == tok + arg;
    } else {
      var more := Body(r) + tail;
      assert Body(arg) + tail == Backslashes(n) + more && more[0] == r[0];
      ScanBackslashes(n, more, true, tok);
      assert more == Body(r) + [QUOTE] + rest;
      ScanBody(r, rest, tok + Backslashes(n));
      assert tok + Backslashes(n) + r == tok + arg;
    }
  }

  /** A run at the end of the argument was doubled: the closing quote still closes. */
  lemma RunAtEnd(n: nat, rest: Text, tok: Text)
    requires n > 0
    ensures Scan(Backslashes(2 * n) + ([QUOTE] + rest), true, tok, true) == Scan(rest, false, tok + Backslashes(n), true)
  {
    ScanBackslashes(2 * n, [QUOTE] + rest, true, tok);
    assert ([QUOTE] + rest)[1..] == rest;
  }

  /** A run before a quote was doubled, and the quote got a backslash of its own. */
  lemma RunAtQuote(n: nat, r: Text, rest: Text, tok: Text)
    requires n > 0 && r != [] && r[0] == QUOTE
    ensures Scan(Backslashes(2 * n) + Body(r) + [QUOTE] + rest, true, tok, true) ==
            Scan(Body(r[1..]) + [QUOTE] + rest, true, tok + Backslashes(n) + [QUOTE], true)
  {
    hide Scan, Body, Run;
    var more := Body(r[1..]) + [QUOTE] + rest;
    BodyAtQuote(r);
    assert Backslashes(2 * n) + [BACKSLASH] == Backslashes(2 * n + 1);
    assert Backslashes(2 * n) + Body(r) + [QUOTE] + rest == Backslashes(2 * n) + [BACKSLASH] + ([QUOTE] + more);
    ScanBackslashes(2 * n + 1, [QUOTE] + more, true, tok);
    assert ([QUOTE] + more)[1..] == more;
  }

  // ----- An argument without quotes -----

  /** The pieces of an unquoted argument between tabs. */
  function TabPieces(arg: Text, tok: Text): seq<Text> {
    if arg == [] then Finished(tok, tok != [])
    else if arg[0] == TAB then Finished(tok, tok != []) + TabPieces(arg[1..], [])
    else TabPieces(arg[1..], tok + [arg[0]])
  }

  predicate AtBoundary(rest: Text) {
    rest == [] || rest[0] == SPACE
  }

  lemma {:induction false} ScanUnquoted(arg: Text, rest: Text, tok: Text)
    requires !NeedsQuotes(arg) && AtBoundary(rest)
    ensures Scan(arg + rest, false, tok, tok != []) == TabPieces(arg, tok) + Scan(rest, false, [], false)
    decreases |arg|
  {
    if arg == [] {
      assert arg + rest == rest;
      if rest != [] {
        assert Finished([], false) + Scan(rest[1..], false, [], false) == Scan(rest[1..], false, [], false);
      }
    } else {
      assert !Special(arg[0]);
      assert (arg + rest)[1..] == arg[1..] + rest;
      assert forall i :: 0 <= i < |arg[1..]| ==> arg[1..][i] == arg[i + 1];
      if arg[0] == TAB {
        ScanUnquoted(arg[1..], rest, []);
      } else {
        ScanUnquoted(arg[1..], rest, tok + [arg[0]]);
      }
    }
  }

  lemma {:induction false} TabFreePieces(arg: Text, tok: Text)
    requires TAB !in arg
    ensures TabPieces(arg, tok) == Finished(tok + arg, tok + arg != [])
  {
    if arg == [] {
      assert tok + arg == tok;
    } else {
      TabFreePieces(arg[1..], tok + [arg[0]]);
      assert tok + [arg[0]] + arg[1..] == tok + arg;
    }
  }

  // ----- The whole line -----

  /** What parsing finds for one argument. */
  function Found(arg: Text): seq<Text> {
    if NeedsQuotes(arg) then [arg] else TabPieces(arg, [])
  }

  function AllFound(args: seq<Text>): seq<Text> {
    if args == [] then [] else Found(args[0]) + AllFound(args[1..])
  }

  lemma ScanArgument(arg: Text, rest: Text)
    requires AtBoundary(rest)
    ensures Scan(Quote(arg) + rest, false, [], false) == Found(arg) + Scan(rest, false, [], false)
  {
    if NeedsQuotes(arg) {
      assert Quote(arg) + rest == [QUOTE] + (Body(arg) + [QUOTE] + rest);
      assert ([QUOTE] + (Body(arg) + [QUOTE] + rest))[1..] == Body(arg) + [QUOTE] + rest;
      ScanBody(arg, rest, []);
      assert [] + arg == arg;
      ScanFinished(rest, arg);
    } else {
      ScanUnquoted(arg, rest, []);
    }
  }

  lemma ScanFinished(rest: Text, tok: Text)
    requires AtBoundary(rest)
    ensures Scan(rest, false, tok, true) == [tok] + Scan(rest, false, [], false)
  {
    if rest != [] {
      assert Finished([], false) + Scan(rest[1..], false, [], false) == Scan(rest[1..], false, [], false);
    }
  }

  lemma {:induction false} ParseLine(args: seq<Text>)
    ensures ParseArguments(Line(args)) == AllFound(args)
  {
    if args != [] {
      hide Scan, Found, Quote;
      var rest := Line(args[1..]);
      assert Line(args) == [SPACE] + (Quote(args[0]) + rest);
      SkipBlank(Quote(args[0]) + rest);
      ScanArgument(args[0], rest);
      ParseLine(args[1..]);
    } else {
      assert ParseArguments([]) == [];
    }
  }

  lemma SkipBlank(rest: Text)
    ensures Scan([SPACE] + rest, false, [], false) == Scan(rest, false, [], false)
  {
    assert ([SPACE] + rest)[1..] == rest;
    assert Finished([], false) + Scan(rest, false, [], false) == Scan(rest, false, [], false);
  }

  /** Neither empty nor split at a tab: a tab survives only in an argument that is quoted for another reason. */
  predicate Recoverable(arg: Text) {
    arg != [] && (TAB !in arg || NeedsQuotes(arg))
  }

  lemma {:induction false} PiecesRecoverable(arg: Text, tok: Text)
    requires TAB !in tok
    ensures forall p :: p in TabPieces(arg, tok) ==> Recoverable(p)
  {
    if arg != [] {
      if arg[0] == TAB {
        PiecesRecoverable(arg[1..], []);
      } else {
        PiecesRecoverable(arg[1..], tok + [arg[0]]);
      }
    }
  }

  lemma {:induction false} AllFoundRecoverable(args: seq<Text>)
    ensures forall p :: p in AllFound(args) ==> Recoverable(p)
  {
    if args != [] {
      AllFoundRecoverable(args[1..]);
      if !NeedsQuotes(args[0]) {
        PiecesRecoverable(args[0], []);
      } else {
        assert args[0] != [];
      }
    }
  }

  lemma {:induction false} RecoverableFound(args: seq<Text>)
    requires forall p :: p in args ==> Recoverable(p)
    ensures AllFound(args) == args
  {
    if args != [] {
      assert args[0] in args && args == [args[0]] + args[1..];
      RecoverableFound(args[1..]);
      if !NeedsQuotes(args[0]) {
        TabFreePieces(args[0], []);
        assert [] + args[0] == args[0];
      }
    }
  }

  /** Quoting is undone by parsing for exactly these argument lists. */
  lemma QuotingIff(args: seq<Text>)
    ensures ParseArguments(Line(args)) == args <==> forall p :: p in args ==> Recoverable(p)
  {
    ParseLine(args);
    AllFoundRecoverable(args);
    if forall p :: p in args ==> Recoverable(p) {
      RecoverableFound(args);
    }
  }

  /** The two kinds of argument that do not survive: an empty one is lost, a bare tab splits. */
  lemma LostArguments()
    ensures ParseArguments(Line([""])) == [] && ParseArguments(Line(["a\tb"])) == ["a", "b"]
  {
    ParseLine([""]);
    ParseLine(["a\tb"]);
    var t: Text := "a\tb";
    assert t[1..] == "\tb" && t[1..][1..] == "b" && t[1..][1..][1..] == "";
    assert TabPieces("b", []) == TabPieces("", [] + ['b']) == ["b"] by { assert "b"[1..] == "" && [] + ['b'] == "b"; }
    assert TabPieces("\tb", "a") == ["a"] + TabPieces("b", []);
    assert [] + [t[0]] == "a" && TabPieces(t, []) == TabPieces(t[1..], "a") == ["a", "b"];
  }

  // ----- The object -----

  class CommandLine {
    var commandLineString: Text
    var args: seq<Text>
    const program: Text  // what the line starts with

    ghost predicate Valid()
      reads this
    {
      commandLineString == program + Line(args)
    }

    constructor (program: Text)
      ensures Valid() && args == [] && this.program == program
    {
      this.program, commandLineString, args := program, program, [];
      assert program + [] == program;
    }

    method AppendArgNative(value: Text)
      requires Valid()
      modifies this
      ensures Valid() && args == old(args) + [value]
    {
      var quoted := WindowsStyleQuote(value);
      LineAppend(args, value);
      assert program + Line(args) + " " + quoted == program + (Line(args) + [SPACE] + quoted);
      commandLineString := commandLineString + " ";
      commandLineString := commandLineString + quoted;
      args := args + [value];
    }

    /** A program that parses what follows its own name gets the arguments that were appended. */
    lemma ArgumentsArrive()
      requires Valid() && forall p :: p in args ==> Recoverable(p)
      ensures ParseArguments(commandLineString[|program|..]) == args
    {
      QuotingIff(args);
    }
  }

  lemma {:induction false} LineAppend(args: seq<Text>, value: Text)
    ensures Line(args + [value]) == Line(args) + [SPACE] + Quote(value)
  {
    if args == [] {
      assert args + [value] == [value] && [value][1..] == [];
      assert [SPACE] + Quote(value) + [] == [] + [SPACE] + Quote(value);
    } else {
      assert (args + [value])[1..] == args[1..] + [value];
      LineAppend(args[1..], value);
    }
  }
}

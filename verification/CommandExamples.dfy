/**
 The rules that the quoting of src/base3/command_line.cc follows, on the examples of
 the page that the source cites for them, and what is written for one argument that
 needs every rule: a blank, a quote behind a backslash, and a backslash at the end.
 */
module CommandExamples {
  import opened CommandLine

  lemma {:induction false} Plain(s: Text, i: nat, j: nat, inQuotes: bool, tok: Text, started: bool)
    requires i < j <= |s|
    requires forall k :: i <= k < j ==> s[k] != '\\' && s[k] != '"' && (inQuotes || (s[k] != ' ' && s[k] != '\t'))
    ensures Scan(s[i..], inQuotes, tok, started) == Scan(s[j..], inQuotes, tok + s[i..j], true)
    decreases j - i
  {
    assert s[i..][1..] == s[i + 1..] && s[i..][0] == s[i];
    assert Scan(s[i..], inQuotes, tok, started) == Scan(s[i + 1..], inQuotes, tok + [s[i]], true);
    if i + 1 < j {
      Plain(s, i + 1, j, inQuotes, tok + [s[i]], true);
      assert tok + [s[i]] + s[i + 1..j] == tok + s[i..j];
    } else {
      assert [s[i]] == s[i..j];
    }
  }

  lemma Blank(s: Text, i: nat, tok: Text)
    requires i < |s| && s[i] == ' '
    ensures Scan(s[i..], false, tok, true) == [tok] + Scan(s[i + 1..], false, [], false)
  {
    assert s[i..][1..] == s[i + 1..] && s[i..][0] == s[i];
  }

  lemma Mark(s: Text, i: nat, inQuotes: bool, tok: Text, started: bool)
    requires i < |s| && s[i] == '"'
    ensures Scan(s[i..], inQuotes, tok, started) == Scan(s[i + 1..], !inQuotes, tok, true)
  {
    assert s[i..][1..] == s[i + 1..] && s[i..][0] == s[i];
  }

  lemma ScanRun(s: Text, i: nat, n: nat, inQuotes: bool, tok: Text)
    requires n > 0 && i + n <= |s| && (i + n == |s| || s[i + n] != '\\')
    requires forall k :: i <= k < i + n ==> s[k] == '\\'
    ensures Scan(s[i..], inQuotes, tok, true) ==
            if i + n < |s| && s[i + n] == '"' then
              if n % 2 == 0 then Scan(s[i + n + 1..], !inQuotes, tok + Backslashes(n / 2), true)
              else Scan(s[i + n + 1..], inQuotes, tok + Backslashes(n / 2) + ['"'], true)
            else Scan(s[i + n..], inQuotes, tok + Backslashes(n), true)
  {
    hide Scan;
    var t := s[i + n..];
    assert s[i..] == Backslashes(n) + t;
    ScanBackslashes(n, t, inQuotes, tok);
    assert t != [] ==> t[1..] == s[i + n + 1..];
  }

  lemma FromStart(s: Text)
    ensures ParseArguments(s) == Scan(s[0..], false, [], false)
  {
    assert s[0..] == s;
  }

  lemma AtEnd(s: Text, tok: Text)
    ensures Scan(s[|s|..], false, tok, true) == [tok]
  {
  }

  /** A quoted argument. */
  lemma Quoted(s: Text)
    requires s == "\"abc\" d e"
    ensures ParseArguments(s) == ["abc", "d", "e"]
  {
    hide *;
    FromStart(s);
    Quoted1(s);
  }

  lemma Quoted1(s: Text)
    requires |s| == 9 && s[0] == '"' && s[1] == 'a' && s[2] == 'b' && s[3] == 'c' && s[4] == '"'
    requires s[5] == ' ' && s[6] == 'd' && s[7] == ' ' && s[8] == 'e'
    ensures Scan(s[0..], false, [], false) == ["abc", "d", "e"]
  {
    hide *;
    Quoted2(s);
    Mark(s, 0, false, [], false);
    Plain(s, 1, 4, true, [], true);
    assert [] + s[1..4] == "abc";
    Mark(s, 4, true, "abc", true);
    Blank(s, 5, "abc");
  }

  lemma Quoted2(s: Text)
    requires |s| == 9 && s[6] == 'd' && s[7] == ' ' && s[8] == 'e'
    ensures Scan(s[6..], false, [], false) == ["d", "e"]
  {
    hide *;
    Quoted3(s);
    Plain(s, 6, 7, false, [], false);
    assert [] + s[6..7] == "d";
    Blank(s, 7, "d");
  }

  lemma Quoted3(s: Text)
    requires |s| == 9 && s[8] == 'e'
    ensures Scan(s[8..], false, [], false) == ["e"]
  {
    hide *;
    Plain(s, 8, 9, false, [], false);
    assert [] + s[8..9] == "e";
    AtEnd(s, "e");
  }

  /** Quotes inside an argument, and backslashes that no quote follows. */
  lemma Inside(s: Text)
    requires s == "a\\\\b d\"e f\"g h"
    ensures ParseArguments(s) == ["a\\\\b", "de fg", "h"]
  {
    hide *;
    FromStart(s);
    Inside1(s);
  }

  lemma Inside1(s: Text)
    requires |s| == 14 && s[0] == 'a' && s[1] == '\\' && s[2] == '\\' && s[3] == 'b' && s[4] == ' '
    requires s[5] == 'd' && s[6] == '"' && s[7] == 'e' && s[8] == ' ' && s[9] == 'f' && s[10] == '"'
    requires s[11] == 'g' && s[12] == ' ' && s[13] == 'h'
    ensures Scan(s[0..], false, [], false) == ["a\\\\b", "de fg", "h"]
  {
    hide *;
    Inside2(s);
    Plain(s, 0, 1, false, [], false);
    assert [] + s[0..1] == "a";
    ScanRun(s, 1, 2, false, "a");
    assert Backslashes(2) == "\\\\" by { Literal(2); }
    assert "a" + "\\\\" == "a\\\\";
    Plain(s, 3, 4, false, "a\\\\", true);
    assert "a\\\\" + s[3..4] == "a\\\\b";
    Blank(s, 4, "a\\\\b");
  }

  lemma Inside2(s: Text)
    requires |s| == 14 && s[5] == 'd' && s[6] == '"' && s[7] == 'e' && s[8] == ' ' && s[9] == 'f'
    requires s[10] == '"' && s[11] == 'g' && s[12] == ' ' && s[13] == 'h'
    ensures Scan(s[5..], false, [], false) == ["de fg", "h"]
  {
    hide *;
    Inside3(s);
    Plain(s, 5, 6, false, [], false);
    assert [] + s[5..6] == "d";
    Mark(s, 6, false, "d", true);
    Plain(s, 7, 10, true, "d", true);
    assert "d" + s[7..10] == "de f";
    Mark(s, 10, true, "de f", true);
    Plain(s, 11, 12, false, "de f", true);
    assert "de f" + s[11..12] == "de fg";
    Blank(s, 12, "de fg");
  }

  lemma Inside3(s: Text)
    requires |s| == 14 && s[13] == 'h'
    ensures Scan(s[13..], false, [], false) == ["h"]
  {
    hide *;
    Plain(s, 13, 14, false, [], false);
    assert [] + s[13..14] == "h";
    AtEnd(s, "h");
  }

  /** An odd number of backslashes before a quote. */
  lemma Odd(s: Text)
    requires s == "a\\\\\\\"b c d"
    ensures ParseArguments(s) == ["a\\\"b", "c", "d"]
  {
    hide *;
    FromStart(s);
    Odd1(s);
  }

  lemma Odd1(s: Text)
    requires |s| == 10 && s[0] == 'a' && s[1] == '\\' && s[2] == '\\' && s[3] == '\\' && s[4] == '"'
    requires s[5] == 'b' && s[6] == ' ' && s[7] == 'c' && s[8] == ' ' && s[9] == 'd'
    ensures Scan(s[0..], false, [], false) == ["a\\\"b", "c", "d"]
  {
    hide *;
    Odd2(s);
    Plain(s, 0, 1, false, [], false);
    assert [] + s[0..1] == "a";
    ScanRun(s, 1, 3, false, "a");
    assert Backslashes(1) == "\\" by { Literal(1); }
    assert "a" + "\\" + ['"'] == "a\\\"";
  }

  lemma Odd2(s: Text)
    requires |s| == 10 && s[5] == 'b' && s[6] == ' ' && s[7] == 'c' && s[8] == ' ' && s[9] == 'd'
    ensures Scan(s[5..], false, "a\\\"", true) == ["a\\\"b", "c", "d"]
  {
    hide *;
    Odd3(s);
    Plain(s, 5, 6, false, "a\\\"", true);
    assert "a\\\"" + s[5..6] == "a\\\"b";
    Blank(s, 6, "a\\\"b");
  }

  lemma Odd3(s: Text)
    requires |s| == 10 && s[7] == 'c' && s[8] == ' ' && s[9] == 'd'
    ensures Scan(s[7..], false, [], false) == ["c", "d"]
  {
    hide *;
    Odd4(s);
    Plain(s, 7, 8, false, [], false);
    assert [] + s[7..8] == "c";
    Blank(s, 8, "c");
  }

  lemma Odd4(s: Text)
    requires |s| == 10 && s[9] == 'd'
    ensures Scan(s[9..], false, [], false) == ["d"]
  {
    hide *;
    Plain(s, 9, 10, false, [], false);
    assert [] + s[9..10] == "d";
    AtEnd(s, "d");
  }

  /** An even number of backslashes before a quote. */
  lemma Even(s: Text)
    requires s == "a\\\\\\\\\"b c\" d e"
    ensures ParseArguments(s) == ["a\\\\b c", "d", "e"]
  {
    hide *;
    FromStart(s);
    Even1(s);
  }

  lemma Even1(s: Text)
    requires |s| == 14 && s[0] == 'a' && s[1] == '\\' && s[2] == '\\' && s[3] == '\\' && s[4] == '\\'
    requires s[5] == '"' && s[6] == 'b' && s[7] == ' ' && s[8] == 'c' && s[9] == '"' && s[10] == ' '
    requires s[11] == 'd' && s[12] == ' ' && s[13] == 'e'
    ensures Scan(s[0..], false, [], false) == ["a\\\\b c", "d", "e"]
  {
    hide *;
    Even2(s);
    Plain(s, 0, 1, false, [], false);
    assert [] + s[0..1] == "a";
    ScanRun(s, 1, 4, false, "a");
    assert Backslashes(2) == "\\\\" by { Literal(2); }
    assert "a" + "\\\\" == "a\\\\";
  }

  lemma Even2(s: Text)
    requires |s| == 14 && s[6] == 'b' && s[7] == ' ' && s[8] == 'c' && s[9] == '"' && s[10] == ' '
    requires s[11] == 'd' && s[12] == ' ' && s[13] == 'e'
    ensures Scan(s[6..], true, "a\\\\", true) == ["a\\\\b c", "d", "e"]
  {
    hide *;
    Even3(s);
    Plain(s, 6, 9, true, "a\\\\", true);
    assert "a\\\\" + s[6..9] == "a\\\\b c";
    Mark(s, 9, true, "a\\\\b c", true);
    Blank(s, 10, "a\\\\b c");
  }

  lemma Even3(s: Text)
    requires |s| == 14 && s[11] == 'd' && s[12] == ' ' && s[13] == 'e'
    ensures Scan(s[11..], false, [], false) == ["d", "e"]
  {
    hide *;
    Even4(s);
    Plain(s, 11, 12, false, [], false);
    assert [] + s[11..12] == "d";
    Blank(s, 12, "d");
  }

  lemma Even4(s: Text)
    requires |s| == 14 && s[13] == 'e'
    ensures Scan(s[13..], false, [], false) == ["e"]
  {
    hide *;
    Plain(s, 13, 14, false, [], false);
    assert [] + s[13..14] == "e";
    AtEnd(s, "e");
  }

  lemma Literal(n: nat)
    requires n <= 2
    ensures Backslashes(n) == if n == 0 then [] else if n == 1 then "\\" else "\\\\"
  {
  }

  /** What is written for an argument with a blank, a quote behind a backslash, and a backslash at the end. */
  lemma Written(arg: Text)
    requires arg == "a \\\"\\"
    ensures Quote(arg) == "\"a \\\\\\\"\\\\\""
  {
    assert arg[1] == SPACE && Special(arg[1]);
    BodyFrom(arg);
    hide Body;
  }

  lemma BodyFrom(arg: Text)
    requires |arg| == 5 && arg[0] == 'a' && arg[1] == ' ' && arg[2] == '\\' && arg[3] == '"' && arg[4] == '\\'
    ensures Body(arg) == "a \\\\\\\"\\\\"
  {
    hide Body, Run, Backslashes;
    BodyEnd(arg);
    RunAt(arg, 2, 1);
    BodyStep(arg, 2);
    Literal(2);
    BodyStep(arg, 1);
    BodyStep(arg, 0);
    assert arg[0..] == arg;
  }

  lemma BodyEnd(arg: Text)
    requires |arg| == 5 && arg[3] == '"' && arg[4] == '\\'
    ensures Body(arg[3..]) == "\\\"\\\\"
  {
    hide Body, Run, Backslashes;
    RunAt(arg, 4, 1);
    BodyStep(arg, 4);
    Literal(2);
    BodyOfNothing();
    assert arg[5..] == [];
    BodyStep(arg, 3);
  }

  lemma RunAt(arg: Text, i: nat, n: nat)
    requires n > 0 && i + n <= |arg| && (i + n == |arg| || arg[i + n] != BACKSLASH)
    requires forall k :: i <= k < i + n ==> arg[k] == BACKSLASH
    ensures Run(arg[i..]) == n
  {
    assert arg[i..] == Backslashes(n) + arg[i + n..];
    RunOf(n, arg[i + n..]);
  }
}

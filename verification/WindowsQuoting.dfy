/** Argument quoting for an elevated launch, against the rules by which a Windows C program splits its command
    line again. */
module WindowsQuoting {
  import opened Common

  function Slashes(n: nat): (s: string)
    ensures |s| == n && forall k | 0 <= k < n :: s[k] == '\\'
  {
    seq(n, _ => '\\')
  }

  // The reader's side: "Parsing C command-line arguments" in Microsoft's C documentation.

  predicate IsBlank(c: char) {
    c == ' ' || c == '\t'
  }

  /** Reads one argument from its first character, or from inside it, `slashes` backslashes behind: before a
      quotation mark, each pair of them is one backslash, and an odd one makes the mark literal; a mark
      otherwise opens or closes a quoted part, except that two in a quoted part are a literal one; a blank
      outside a quoted part ends the argument. */
  function ReadArgument(s: string, quoted: bool, slashes: nat): (r: (string, string))
    ensures |r.1| <= |s|
    ensures s != "" && (quoted || !IsBlank(s[0])) ==> |r.1| < |s|
    decreases |s|
  {
    if s == "" then (Slashes(slashes), "")
    else if s[0] == '\\' then ReadArgument(s[1..], quoted, slashes + 1)
    else if s[0] == '"' then
      if slashes % 2 == 1 then Prepend(Slashes(slashes / 2) + "\"", ReadArgument(s[1..], quoted, 0))
      else if quoted && |s| > 1 && s[1] == '"' then
        Prepend(Slashes(slashes / 2) + "\"", ReadArgument(s[2..], quoted, 0))
      else Prepend(Slashes(slashes / 2), ReadArgument(s[1..], !quoted, 0))
    else if IsBlank(s[0]) && !quoted then (Slashes(slashes), s)
    else Prepend(Slashes(slashes) + [s[0]], ReadArgument(s[1..], quoted, 0))
  }

  function Prepend(s: string, r: (string, string)): (string, string) {
    (s + r.0, r.1)
  }

  function ReadArguments(s: string): seq<string>
    decreases |s|
  {
    if s == "" then []
    else if IsBlank(s[0]) then ReadArguments(s[1..])
    else var (argument, rest) := ReadArgument(s, false, 0); [argument] + ReadArguments(rest)
  }

  // The writer's side.

  /** What is still to be written for the rest of an argument, with `slashes` backslashes held back. */
  function QuoteRest(argument: string, slashes: nat): string
    decreases |argument|
  {
    if argument == "" then Slashes(slashes * 2) + "\""
    else if argument[0] == '\\' then QuoteRest(argument[1..], slashes + 1)
    else if argument[0] == '"' then Slashes(slashes * 2 + 1) + "\"" + QuoteRest(argument[1..], 0)
    else Slashes(slashes) + [argument[0]] + QuoteRest(argument[1..], 0)
  }

  function Quote(argument: string): string {
    "\"" + QuoteRest(argument, 0)
  }

  function Joined(args: seq<string>): string {
    if args == [] then "" else if |args| == 1 then Quote(args[0]) else Quote(args[0]) + " " + Joined(args[1..])
  }

  method QuoteWindowsArgument(argument: string) returns (quoted: string)
    ensures quoted == Quote(argument)
    ensures ReadArguments(quoted) == [argument]
  {
    quoted := "\"";
    var backslashes := 0;
    for i := 0 to |argument|
      invariant quoted + QuoteRest(argument[i..], backslashes) == Quote(argument)
    {
      var c := argument[i];
      assert argument[i..][1..] == argument[i + 1..];
      if c == '\\' {
        backslashes := backslashes + 1;
      } else if c == '"' {
        quoted := quoted + Slashes(backslashes * 2 + 1) + "\"";
        backslashes := 0;
      } else {
        quoted := quoted + Slashes(backslashes) + [c];
        backslashes := 0;
      }
    }
    quoted := quoted + Slashes(backslashes * 2);
    quoted := quoted + "\"";
    RoundTrip([argument]);
  }

  lemma {:induction false} ReadSlashes(n: nat, s: string, quoted: bool, slashes: nat)
    ensures ReadArgument(Slashes(n) + s, quoted, slashes) == ReadArgument(s, quoted, slashes + n)
  {
    if n == 0 {
      assert Slashes(n) + s == s;
    } else {
      assert (Slashes(n) + s)[1..] == Slashes(n - 1) + s;
      ReadSlashes(n - 1, s, quoted, slashes + 1);
    }
  }

  lemma {:induction false} ReadEscapedMark(n: nat, s: string)
    ensures ReadArgument(Slashes(n * 2 + 1) + ("\"" + s), true, 0)
            == Prepend(Slashes(n) + "\"", ReadArgument(s, true, 0))
  {
    ReadSlashes(n * 2 + 1, "\"" + s, true, 0);
    assert ("\"" + s)[1..] == s;
  }

  lemma {:induction false} ReadOrdinary(n: nat, c: char, s: string)
    requires c != '\\' && c != '"'
    ensures ReadArgument(Slashes(n) + ([c] + s), true, 0) == Prepend(Slashes(n) + [c], ReadArgument(s, true, 0))
  {
    ReadSlashes(n, [c] + s, true, 0);
    assert ([c] + s)[1..] == s;
  }

  lemma {:induction false} ReadClosingMark(n: nat, tail: string)
    requires tail == "" || IsBlank(tail[0])
    ensures ReadArgument(Slashes(n * 2) + ("\"" + tail), true, 0) == (Slashes(n), tail)
  {
    ReadSlashes(n * 2, "\"" + tail, true, 0);
    assert ("\"" + tail)[1..] == tail;
    assert Slashes(n) + Slashes(0) == Slashes(n);
  }

  /** After the opening mark, the rest of a quoted argument is read back, held backslashes included, and the
      reading stops where the writing did. */
  lemma {:induction false} ReadQuoted(argument: string, slashes: nat, tail: string)
    requires tail == "" || IsBlank(tail[0])
    ensures ReadArgument(QuoteRest(argument, slashes) + tail, true, 0) == (Slashes(slashes) + argument, tail)
    decreases |argument|
  {
    if argument == "" {
      ReadClosingMark(slashes, tail);
      assert QuoteRest(argument, slashes) + tail == Slashes(slashes * 2) + ("\"" + tail);
      assert Slashes(slashes) + argument == Slashes(slashes);
    } else if argument[0] == '\\' {
      ReadQuoted(argument[1..], slashes + 1, tail);
      assert Slashes(slashes + 1) + argument[1..] == Slashes(slashes) + argument;
    } else {
      ReadQuoted(argument[1..], 0, tail);
      ReadQuotedCharacter(argument, slashes, tail);
    }
  }

  lemma {:induction false} ReadQuotedCharacter(argument: string, slashes: nat, tail: string)
    requires argument != "" && argument[0] != '\\'
    requires ReadArgument(QuoteRest(argument[1..], 0) + tail, true, 0) == (Slashes(0) + argument[1..], tail)
    ensures ReadArgument(QuoteRest(argument, slashes) + tail, true, 0) == (Slashes(slashes) + argument, tail)
  {
    var c, rest := argument[0], QuoteRest(argument[1..], 0);
    if c == '"' {
      Regroup(Slashes(slashes * 2 + 1), "\"", rest, tail);
      ReadEscapedMark(slashes, rest + tail);
    } else {
      Regroup(Slashes(slashes), [c], rest, tail);
      ReadOrdinary(slashes, c, rest + tail);
    }
    PutBack(Slashes(slashes), argument);
  }

  lemma {:induction false} Regroup(a: string, b: string, c: string, d: string)
    ensures a + b + c + d == a + (b + (c + d))
  {
  }

  lemma {:induction false} PutBack(s: string, argument: string)
    requires argument != ""
    ensures s + [argument[0]] + (Slashes(0) + argument[1..]) == s + argument
  {
  }

  lemma {:induction false} ReadWhole(argument: string, tail: string)
    requires tail == "" || IsBlank(tail[0])
    ensures ReadArgument(Quote(argument) + tail, false, 0) == (argument, tail)
  {
    var s := Quote(argument) + tail;
    assert s[1..] == QuoteRest(argument, 0) + tail;
    ReadQuoted(argument, 0, tail);
    assert Slashes(0) + (Slashes(0) + argument) == argument;
  }

  /** Reading back what was joined gives the arguments, for every list: empty arguments, blanks, quotation
      marks, and backslashes before a mark or at the end included. */
  lemma {:induction false} RoundTrip(args: seq<string>)
    ensures ReadArguments(Joined(args)) == args
  {
    if args == [] {
    } else if |args| == 1 {
      ReadWhole(args[0], "");
      assert Quote(args[0]) + "" == Quote(args[0]);
    } else {
      var tail := " " + Joined(args[1..]);
      ReadWhole(args[0], tail);
      assert Joined(args) == Quote(args[0]) + tail;
      assert tail[1..] == Joined(args[1..]);
      RoundTrip(args[1..]);
    }
  }

  // The launch.

  predicate HasNul(s: string) {
    '\0' in s
  }

  function LowerAscii(c: char): char {
    if 'A' <= c <= 'Z' then c - 'A' + 'a' else c
  }

  predicate IsExe(extension: Option<string>) {
    extension.Some? && |extension.value| == 3
    && LowerAscii(extension.value[0]) == 'e' && LowerAscii(extension.value[1]) == 'x'
    && LowerAscii(extension.value[2]) == 'e'
  }

  lemma {:induction false} ExeInAnyCase(extension: Option<string>)
    ensures IsExe(extension)
            <==> extension.Some? && extension.value in ["exe", "exE", "eXe", "eXE", "Exe", "ExE", "EXe", "EXE"]
  {
    if IsExe(extension) {
      var e := extension.value;
      assert e == [e[0], e[1], e[2]];
      assert e[0] in "eE" && e[1] in "xX" && e[2] in "eE";
    }
  }

  /** The parameter string of an elevated launch: refused for a program that is not an executable file or for
      a NUL in an argument, absent without arguments, and otherwise a NUL-free string that the started
      program splits into exactly the configured arguments. */
  method ElevatedParameters(extension: Option<string>, args: seq<string>)
    returns (r: Result<Option<string>, string>)
    ensures r.Err? <==> !IsExe(extension) || exists i | 0 <= i < |args| :: HasNul(args[i])
    ensures r.Ok? ==> (r.value.None? <==> args == [])
    ensures r.Ok? && r.value.Some? ==> ReadArguments(r.value.value) == args && !HasNul(r.value.value)
  {
    if !IsExe(extension) || exists i | 0 <= i < |args| :: HasNul(args[i]) {
      return Err("Invalid executable path or arguments");
    }
    if args == [] {
      return Ok(None);
    }
    var value := JoinQuoted(args);
    RoundTrip(args);
    JoinedNoNul(args);
    return Ok(Some(value));
  }

  method JoinQuoted(args: seq<string>) returns (value: string)
    ensures value == Joined(args)
  {
    value := "";
    for i := 0 to |args|
      invariant i == 0 ==> value == ""
      invariant i > 0 ==> value + (if i < |args| then " " + Joined(args[i..]) else "") == Joined(args)
    {
      if i > 0 {
        value := value + " ";
      }
      ghost var before := value;
      var quoted := QuoteWindowsArgument(args[i]);
      value := value + quoted;
      assert args[i..][1..] == args[i + 1..];
      ghost var tail := if i + 1 < |args| then " " + Joined(args[i + 1..]) else "";
      assert Joined(args[i..]) == quoted + tail;
      assert value + tail == before + (quoted + tail);
    }
  }

  lemma {:induction false} JoinedNoNul(args: seq<string>)
    requires forall i | 0 <= i < |args| :: !HasNul(args[i])
    ensures !HasNul(Joined(args))
  {
    if args == [] {
    } else {
      QuoteRestNoNul(args[0], 0);
      JoinedNoNul(args[1..]);
    }
  }

  lemma {:induction false} QuoteRestNoNul(argument: string, slashes: nat)
    requires !HasNul(argument)
    ensures !HasNul(QuoteRest(argument, slashes))
    decreases |argument|
  {
    if argument == "" {
    } else {
      QuoteRestNoNul(argument[1..], if argument[0] == '\\' then slashes + 1 else 0);
    }
  }
}

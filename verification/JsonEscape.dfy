/** Escaping of log text into fixed buffers, once for a field and once more for the whole line. */
module JsonEscape {
  import opened Common
  import opened CStrings

  const ESCAPE_BUFFER := 1024
  const LINE_BUFFER := 1536

  function EscapeOf(c: char): string {
    if c == '"' then "\\\""
    else if c == '\\' then "\\\\"
    else if c == '\n' then "\\n"
    else if c == '\r' then "\\r"
    else if c == '\t' then "\\t"
    else [c]
  }

  function Escaped(s: string): string {
    if s == "" then "" else EscapeOf(s[0]) + Escaped(s[1..])
  }

  // The reader's side: the two-character escapes of section 7 of RFC 8259.

  function Unescape(t: string): Option<string> {
    if t == "" then Some("")
    else if t[0] == '"' then None
    else if t[0] == '\\' then
      if |t| == 1 then None
      else match (UnescapeOf(t[1]), Unescape(t[2..]))
        case (Some(c), Some(rest)) => Some([c] + rest)
        case _ => None
    else match Unescape(t[1..])
      case Some(rest) => Some([t[0]] + rest)
      case None => None
  }

  function UnescapeOf(c: char): Option<char> {
    match c
    case '"' => Some('"')
    case '\\' => Some('\\')
    case '/' => Some('/')
    case 'b' => Some(8 as char)
    case 'f' => Some(12 as char)
    case 'n' => Some('\n')
    case 'r' => Some('\r')
    case 't' => Some('\t')
    case _ => None
  }

  /** How many characters fit: escaping goes on while fewer than `limit` characters have been written. */
  function Taken(s: string, limit: nat): (n: nat)
    ensures n <= |s|
  {
    if s == "" || limit == 0 then 0
    else
      var width := |EscapeOf(s[0])|;
      1 + Taken(s[1..], if width <= limit then limit - width else 0)
  }

  /** The switch in the loop. */
  method PutEscape(c: char, out: array<char>, pos: nat) returns (next: nat)
    requires pos + 2 <= out.Length
    modifies out
    ensures next == pos + |EscapeOf(c)| && out[..next] == old(out[..pos]) + EscapeOf(c)
  {
    match c {
      case '"' => out[pos], out[pos + 1] := '\\', '"';
      case '\\' => out[pos], out[pos + 1] := '\\', '\\';
      case '\n' => out[pos], out[pos + 1] := '\\', 'n';
      case '\r' => out[pos], out[pos + 1] := '\\', 'r';
      case '\t' => out[pos], out[pos + 1] := '\\', 't';
      case _ => out[pos] := c;
    }
    next := pos + |EscapeOf(c)|;
  }

  function Kept(s: string, limit: nat): string {
    Escaped(s[..Taken(s, limit)])
  }

  /** `escape_json`: from a NUL-terminated buffer into one of at least six characters.  The result is the
      escaping of a prefix of the input, so no escape is ever split. */
  method EscapeJson(input: seq<char>, out: array<char>)
    requires NUL in input && out.Length >= 6
    modifies out
    ensures NUL in out[..]
    ensures var s := CString(input); CString(out[..]) == Kept(s, out.Length - 6)
  {
    ghost var s := CString(input);
    ghost var limit := out.Length - 6;
    var pos: nat, i: nat := 0, 0;
    while input[i] != NUL && pos < out.Length - 6
      invariant i <= |s| && pos <= limit + 1
      invariant Progress(s, limit, i, out[..pos])
      decreases |s| - i
    {
      StopsAtLength(input, i);
      ProgressStep(s, limit, i, out[..pos]);
      pos := PutEscape(input[i], out, pos);
      i := i + 1;
    }
    StopsAtLength(input, i);
    ProgressDone(s, limit, i, out[..pos]);
    out[pos] := NUL;
    assert out[..][..pos] == Kept(s, limit);
    TerminatedAt(out[..], pos);
  }

  /** After `i` characters, `text` has been written. */
  ghost predicate Progress(s: string, limit: nat, i: nat, text: string) {
    i <= |s| && text == Escaped(s[..i]) && |text| <= limit + 1
    && Taken(s, limit) == i + Taken(s[i..], if |text| <= limit then limit - |text| else 0)
  }

  lemma {:induction false} ProgressStep(s: string, limit: nat, i: nat, text: string)
    requires Progress(s, limit, i, text) && i < |s| && |text| < limit
    ensures Progress(s, limit, i + 1, text + EscapeOf(s[i]))
  {
    EscapedSnoc(s, i);
    assert s[i..][1..] == s[i + 1..];
  }

  lemma {:induction false} ProgressDone(s: string, limit: nat, i: nat, text: string)
    requires Progress(s, limit, i, text) && (i == |s| || |text| >= limit) && NUL !in s
    ensures text == Kept(s, limit) && NUL !in text
  {
    NoNulEscaped(s[..i]);
  }

  lemma {:induction false} EscapedAppend(a: string, b: string)
    ensures Escaped(a + b) == Escaped(a) + Escaped(b)
  {
    if a == "" {
      assert a + b == b;
    } else {
      assert (a + b)[1..] == a[1..] + b;
      EscapedAppend(a[1..], b);
    }
  }

  lemma {:induction false} EscapedSnoc(s: string, i: nat)
    requires i < |s|
    ensures Escaped(s[..i + 1]) == Escaped(s[..i]) + EscapeOf(s[i])
  {
    assert s[..i + 1] == s[..i] + [s[i]];
    EscapedAppend(s[..i], [s[i]]);
    assert Escaped([s[i]]) == EscapeOf(s[i]) + Escaped("");
  }

  lemma {:induction false} NoNulEscaped(s: string)
    requires NUL !in s
    ensures NUL !in Escaped(s)
  {
    if s == "" {
    } else {
      NoNulEscaped(s[1..]);
    }
  }

  lemma {:induction false} UnescapeStep(c: char, t: string)
    ensures Unescape(EscapeOf(c) + t)
            == match Unescape(t) case Some(rest) => Some([c] + rest) case None => None
  {
    assert (EscapeOf(c) + t)[|EscapeOf(c)|..] == t;
  }

  /** Decoding gives back what was escaped. */
  lemma {:induction false} DecodeEscaped(s: string)
    ensures Unescape(Escaped(s)) == Some(s)
  {
    if s == "" {
    } else {
      DecodeEscaped(s[1..]);
      UnescapeStep(s[0], Escaped(s[1..]));
      assert [s[0]] + s[1..] == s;
    }
  }

  predicate NoControls(t: string) {
    forall k | 0 <= k < |t| :: t[k] >= ' '
  }

  lemma {:induction false} NoControlsAppend(a: string, b: string)
    ensures NoControls(a + b) <==> NoControls(a) && NoControls(b)
  {
    if NoControls(a + b) {
      assert forall k | 0 <= k < |a| :: a[k] == (a + b)[k];
      assert forall k | 0 <= k < |b| :: b[k] == (a + b)[|a| + k];
    }
  }

  predicate HasTwoCharacterEscape(c: char) {
    c == '\n' || c == '\r' || c == '\t'
  }

  /** The result is the inside of a JSON string, which also bans raw control characters, exactly when the
      input has none besides newline, carriage return and tab: the others are copied as they are. */
  lemma {:induction false} NoRawControlCharacters(s: string)
    ensures NoControls(Escaped(s)) <==> forall k | 0 <= k < |s| :: s[k] >= ' ' || HasTwoCharacterEscape(s[k])
  {
    if s == "" {
    } else {
      NoRawControlCharacters(s[1..]);
      NoControlsAppend(EscapeOf(s[0]), Escaped(s[1..]));
      assert EscapeOf(s[0])[0] >= ' ' <==> s[0] >= ' ' || HasTwoCharacterEscape(s[0]);
      assert forall k | 0 <= k < |s| - 1 :: s[1..][k] == s[k + 1];
      assert forall k | 0 < k < |s| :: s[k] == s[1..][k - 1];
    }
  }

  /** What fits, in terms of written lengths: the prefix stops at the end or at the first point where the
      limit is reached. */
  lemma {:induction false} TakenMeaning(s: string, limit: nat)
    ensures Taken(s, limit) < |s| ==> |Escaped(s[..Taken(s, limit)])| >= limit
    ensures Taken(s, limit) > 0 ==> |Escaped(s[..Taken(s, limit) - 1])| < limit
  {
    if s == "" || limit == 0 {
    } else {
      var width := |EscapeOf(s[0])|;
      var left := if width <= limit then limit - width else 0;
      TakenMeaning(s[1..], left);
      var n := Taken(s[1..], left);
      assert s[..n + 1][1..] == s[1..][..n];
      if n > 0 {
        assert s[..n][1..] == s[1..][..n - 1];
      }
    }
  }

  lemma {:induction false} EscapedLonger(s: string, i: nat, j: nat)
    requires i <= j <= |s|
    ensures |Escaped(s[..i])| + (j - i) <= |Escaped(s[..j])|
  {
    if i == j {
    } else {
      EscapedLonger(s, i, j - 1);
      EscapedSnoc(s, j - 1);
    }
  }

  predicate FitsWhole(s: string, limit: nat) {
    s == "" || |Escaped(s[..|s| - 1])| < limit
  }

  /** Nothing is lost exactly when all but the last character leave room for one more. */
  lemma {:induction false} WholeExactly(s: string, limit: nat)
    ensures Taken(s, limit) == |s| <==> FitsWhole(s, limit)
  {
    TakenMeaning(s, limit);
    if s != "" && Taken(s, limit) < |s| {
      EscapedLonger(s, Taken(s, limit), |s| - 1);
    }
  }

  // The two applications.

  const ROOM: nat := ESCAPE_BUFFER - 6

  function LogLine(head: string, msg: string, tail: string): string {
    head + Kept(msg, ROOM) + tail
  }

  /** `log_event` and `send_loki_line`: the message is escaped, put into a line, and the line escaped again;
      `head` and `tail` are the line's other text.  A line that does not fit its buffer is skipped.  What is
      sent decodes to a prefix of the line, and to the whole line when nothing was cut. */
  method LogEvent(head: string, msg: seq<char>, tail: string) returns (r: Option<string>)
    requires NUL in msg && NUL !in head && NUL !in tail
    ensures var line := LogLine(head, CString(msg), tail);
            (r.Some? <==> 0 < |line| < LINE_BUFFER)
            && (r.Some? ==> Unescape(r.value) == Some(line[..Taken(line, ROOM)]))
            && (r.Some? && FitsWhole(line, ROOM) ==> Unescape(r.value) == Some(line))
  {
    var escaped := new char[ESCAPE_BUFFER];
    EscapeJson(msg, escaped);
    var inner := CString(escaped[..]);
    var line := head + inner + tail;
    if !(0 < |line| < LINE_BUFFER) {
      return None;
    }
    NoNulJoined(head, inner, tail);
    r := SendLine(line);
  }

  lemma {:induction false} NoNulJoined(a: string, b: string, c: string)
    requires NUL !in a && NUL !in b && NUL !in c
    ensures NUL !in a + b + c
  {
  }

  method SendLine(line: string) returns (r: Option<string>)
    requires 0 < |line| < LINE_BUFFER && NUL !in line
    ensures r.Some? && Unescape(r.value) == Some(line[..Taken(line, ROOM)])
    ensures FitsWhole(line, ROOM) ==> Unescape(r.value) == Some(line)
  {
    var buffer := line + [NUL];
    assert buffer[..|line|] == line;
    TerminatedAt(buffer, |line|);
    var escapedLine := new char[ESCAPE_BUFFER];
    EscapeJson(buffer, escapedLine);
    DecodeEscaped(line[..Taken(line, ROOM)]);
    WholeExactly(line, ROOM);
    assert line[..|line|] == line;
    return Some(CString(escapedLine[..]));
  }

  /** A prefix of an escaping decodes exactly when it does not end inside an escape, and then to the prefix
      of the text it stands for. */
  lemma {:induction false} DecodePrefix(s: string, k: nat) returns (n: nat)
    requires k <= |Escaped(s)|
    ensures n <= |s| && |Escaped(s[..n])| <= k && (n < |s| ==> k < |Escaped(s[..n + 1])|)
    ensures Unescape(Escaped(s)[..k]) == if |Escaped(s[..n])| == k then Some(s[..n]) else None
  {
    n := 0;
    if s == "" {
    } else {
      var e, rest := EscapeOf(s[0]), Escaped(s[1..]);
      if k < |e| {
        assert s[..1][1..] == "" && Escaped(s[..1]) == e + Escaped("");
        assert Escaped(s)[..k] == e[..k];
      } else {
        var m := DecodePrefix(s[1..], k - |e|);
        n := m + 1;
        PrefixTail(s, n);
        if n < |s| {
          PrefixTail(s, n + 1);
        }
        assert Escaped(s)[..k] == e + rest[..k - |e|];
        UnescapeStep(s[0], rest[..k - |e|]);
      }
    }
  }

  /** The message inside what was sent: of a line cut before the message's end, the decoded line's inner text
      decodes exactly when the cut is not inside one of its escapes; past the message, it always does. */
  lemma {:induction false} InnerText(head: string, msg: string, tail: string) returns (n: nat)
    requires |head| <= Taken(LogLine(head, msg, tail), ROOM)
    ensures var line, cut, inner := LogLine(head, msg, tail), Taken(LogLine(head, msg, tail), ROOM), |Kept(msg, ROOM)|;
            if cut < |head| + inner
            then n <= |msg| && Unescape(line[|head|..cut])
                 == if |Escaped(msg[..n])| == cut - |head| then Some(msg[..n]) else None
            else Unescape(line[|head|..|head| + inner]) == Some(msg[..Taken(msg, ROOM)])
  {
    var line, cut := LogLine(head, msg, tail), Taken(LogLine(head, msg, tail), ROOM);
    var kept := msg[..Taken(msg, ROOM)];
    if cut < |head| + |Escaped(kept)| {
      n := DecodePrefix(kept, cut - |head|);
      assert line[|head|..cut] == Escaped(kept)[..cut - |head|];
      assert kept[..n] == msg[..n];
    } else {
      n := 0;
      DecodeEscaped(kept);
      assert line[|head|..|head| + |Escaped(kept)|] == Escaped(kept);
    }
  }

  lemma {:induction false} PrefixTail(s: string, n: nat)
    requires 0 < n <= |s|
    ensures Escaped(s[..n]) == EscapeOf(s[0]) + Escaped(s[1..][..n - 1]) && s[..n] == [s[0]] + s[1..][..n - 1]
  {
    assert s[..n][1..] == s[1..][..n - 1];
  }

  lemma {:induction false} TakenAppend(a: string, b: string, limit: nat)
    requires |Escaped(a)| <= limit
    ensures Taken(a + b, limit) == |a| + Taken(b, limit - |Escaped(a)|)
  {
    if a == "" {
      assert a + b == b;
    } else {
      assert (a + b)[1..] == a[1..] + b;
      TakenAppend(a[1..], b, limit - |EscapeOf(a[0])|);
    }
  }

  function Marks(n: nat): string {
    seq(n, _ => '"')
  }

  /** `n` quotation marks escaped are `n` pairs, each of whose characters is written as a pair again. */
  lemma {:induction false} EscapedMarks(n: nat, limit: nat)
    requires limit <= 4 * n
    ensures |Escaped(Marks(n))| == 2 * n
    ensures Taken(Escaped(Marks(n)), limit) == (limit + 1) / 2
  {
    if n == 0 {
    } else {
      assert Marks(n)[1..] == Marks(n - 1);
      var rest := Escaped(Marks(n - 1));
      var t := Escaped(Marks(n));
      assert t == "\\\"" + rest;
      assert t[1..] == "\"" + rest && t[1..][1..] == rest;
      EscapedMarks(n - 1, if limit < 4 then 0 else limit - 4);
    }
  }

  /** The message inside a line that was cut: for every other text of the line there is a message whose inner
      escape the outer cut splits, so that the inner text does not decode. */
  lemma {:induction false} OuterCutSplitsInner(head: string, tail: string) returns (msg: string, k: nat)
    requires |Escaped(head)| <= 1000 && |head| + |tail| <= 500
    ensures NUL !in msg && |LogLine(head, msg, tail)| < LINE_BUFFER
    ensures k <= |Escaped(msg)| && |head| + k == Taken(LogLine(head, msg, tail), ROOM)
    ensures LogLine(head, msg, tail)[|head|..|head| + k] == Escaped(msg)[..k]
    ensures Unescape(Escaped(msg)[..k]) == None
  {
    var before := if (ROOM - |Escaped(head)| + 1) / 2 % 2 == 1 then "" else "xx";
    msg := before + Marks(500);
    MarksFit(before, 500, ROOM);
    CutInMarks(head, before, 500, tail, ROOM);
    k := |before| + (ROOM - |Escaped(head)| - |before| + 1) / 2;
    CutMessage(before, 500, k);
    InnerPart(head, Escaped(msg), tail, k);
  }

  lemma {:induction false} CutMessage(before: string, count: nat, k: nat)
    requires before == "" || before == "xx"
    requires |Escaped(Marks(count))| == 2 * count && Escaped(before + Marks(count)) == before + Escaped(Marks(count))
    requires |before| <= k <= |before| + 2 * count && (k - |before|) % 2 == 1
    ensures Unescape(Escaped(before + Marks(count))[..k]) == None
  {
    var pairs := Escaped(Marks(count));
    OddCutSplits(count, k - |before|);
    PlainBefore(before, pairs[..k - |before|]);
    assert (before + pairs)[..k] == before + pairs[..k - |before|];
  }

  lemma {:induction false} InnerPart(head: string, inner: string, tail: string, k: nat)
    requires k <= |inner|
    ensures (head + inner + tail)[|head|..|head| + k] == inner[..k]
  {
  }

  lemma {:induction false} MarksFit(before: string, count: nat, limit: nat)
    requires (before == "" || before == "xx") && 0 < count && 2 * count < limit
    ensures Kept(before + Marks(count), limit) == before + Escaped(Marks(count))
    ensures Escaped(before + Marks(count)) == before + Escaped(Marks(count)) && |Escaped(Marks(count))| == 2 * count
  {
    var msg := before + Marks(count);
    PlainStaysPlain(before);
    EscapedAppend(before, Marks(count));
    EscapedMarks(count, 0);
    EscapedAppend(before, Marks(count - 1));
    EscapedMarks(count - 1, 0);
    assert msg[..|msg| - 1] == before + Marks(count - 1);
    WholeExactly(msg, limit);
    assert msg[..|msg|] == msg;
  }

  lemma {:induction false} CutInMarks(head: string, before: string, count: nat, tail: string, limit: nat)
    requires (before == "" || before == "xx") && |Escaped(head)| + 2 <= limit <= |Escaped(head)| + 4 * count - 2
    ensures Taken(head + (before + Escaped(Marks(count))) + tail, limit)
            == |head| + |before| + (limit - |Escaped(head)| - |before| + 1) / 2
  {
    var room := limit - |Escaped(head)| - |before|;
    var pairs := Escaped(Marks(count));
    PlainStaysPlain(before);
    EscapedAppend(head, before);
    EscapedMarks(count, room);
    TakenWithin(pairs, tail, room);
    TakenAppend(head + before, pairs + tail, limit);
    Regroup(head, before, pairs, tail);
  }

  lemma {:induction false} Regroup(a: string, b: string, c: string, d: string)
    ensures a + (b + c) + d == (a + b) + (c + d)
  {
  }

  lemma {:induction false} PlainStaysPlain(before: string)
    requires before == "" || before == "xx"
    ensures Escaped(before) == before
  {
    if before == "xx" {
      var last := before[1..];
      assert last == "x" && last[1..] == "";
      assert Escaped(last) == "x" + Escaped("");
    }
  }

  lemma {:induction false} TakenWithin(a: string, b: string, limit: nat)
    requires Taken(a, limit) < |a|
    ensures Taken(a + b, limit) == Taken(a, limit)
  {
    if limit == 0 {
    } else {
      assert (a + b)[1..] == a[1..] + b;
      var width := |EscapeOf(a[0])|;
      TakenWithin(a[1..], b, if width <= limit then limit - width else 0);
    }
  }

  /** An odd distance into the escaped marks is inside an escape. */
  lemma {:induction false} OddCutSplits(count: nat, k: nat)
    requires k <= |Escaped(Marks(count))| == 2 * count && k % 2 == 1
    ensures Unescape(Escaped(Marks(count))[..k]) == None
  {
    assert Marks(count)[1..] == Marks(count - 1);
    var rest := Escaped(Marks(count - 1));
    if k == 1 {
    } else {
      OddCutSplits(count - 1, k - 2);
      assert Escaped(Marks(count))[..k] == EscapeOf('"') + rest[..k - 2];
      UnescapeStep('"', rest[..k - 2]);
    }
  }

  lemma {:induction false} PlainBefore(before: string, t: string)
    requires before == "" || before == "xx"
    requires Unescape(t) == None
    ensures Unescape(before + t) == None
  {
    if before == "" {
      assert before + t == t;
    } else {
      UnescapeStep('x', t);
      UnescapeStep('x', "x" + t);
      assert before + t == "x" + ("x" + t);
    }
  }
}

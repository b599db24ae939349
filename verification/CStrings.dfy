/** NUL-terminated strings in fixed buffers. */
module CStrings {
  const NUL := 0 as char

  /** The string a buffer holds: everything before its first NUL. */
  function CString(buffer: seq<char>): (s: string)
    ensures |s| <= |buffer| && s == buffer[..|s|] && NUL !in s
    ensures NUL in buffer <==> |s| < |buffer|
    ensures |s| < |buffer| ==> buffer[|s|] == NUL
  {
    if buffer == [] || buffer[0] == NUL then [] else [buffer[0]] + CString(buffer[1..])
  }

  /** The first NUL ends the held string. */
  lemma {:induction false} TerminatedAt(buffer: seq<char>, n: nat)
    requires n < |buffer| && buffer[n] == NUL && NUL !in buffer[..n]
    ensures CString(buffer) == buffer[..n]
  {
    if n == 0 {
    } else {
      assert buffer[0] == buffer[..n][0];
      assert buffer[1..][..n - 1] == buffer[..n][1..];
      TerminatedAt(buffer[1..], n - 1);
    }
  }

  /** At a position within the held string, the buffer has its terminator exactly at the string's end. */
  lemma {:induction false} StopsAtLength(buffer: seq<char>, i: nat)
    requires NUL in buffer && i <= |CString(buffer)|
    ensures buffer[i] == NUL <==> i == |CString(buffer)|
    ensures i < |CString(buffer)| ==> CString(buffer)[i] == buffer[i]
  {
    if i < |CString(buffer)| {
      assert CString(buffer)[i] == buffer[i];
    }
  }
}

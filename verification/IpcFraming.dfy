/** Length-prefixed frames between the settings app and the daemon. */
module IpcFraming {
  import opened Common

  type Byte = b: int | 0 <= b < 256

  const MAX_FRAME_BYTES := 128 * 1024 * 1024

  datatype Failure = UnexpectedEof | InvalidData | InvalidInput

  function BigEndian(n: nat): seq<Byte>
    requires n < 0x1_0000_0000
  {
    [n / 0x100_0000, n / 0x1_0000 % 256, n / 256 % 256, n % 256]
  }

  function FromBigEndian(p: seq<Byte>): nat
    requires |p| == 4
  {
    var a: int, b: int, c: int, d: int := p[0], p[1], p[2], p[3];
    ((a * 256 + b) * 256 + c) * 256 + d
  }

  lemma {:induction false} BigEndianRoundTrip(n: nat)
    requires n < 0x1_0000_0000
    ensures FromBigEndian(BigEndian(n)) == n
  {
    assert n / 0x1_0000 == n / 256 / 256 && n / 0x100_0000 == n / 0x1_0000 / 256;
  }

  lemma {:induction false} BigEndianOnto(p: seq<Byte>)
    requires |p| == 4
    ensures FromBigEndian(p) < 0x1_0000_0000 && BigEndian(FromBigEndian(p)) == p
  {
    var first: int, second: int, third: int, fourth: int := p[0], p[1], p[2], p[3];
    var a := first * 256 + second;
    var b := a * 256 + third;
    var n := b * 256 + fourth;
    assert n / 256 == b && b / 256 == a && a / 256 == first;
    assert n / 0x1_0000 == n / 256 / 256 && n / 0x100_0000 == n / 0x1_0000 / 256;
  }

  predicate Fits(frame: seq<Byte>) {
    0 < |frame| <= MAX_FRAME_BYTES
  }

  function Framed(frame: seq<Byte>): seq<Byte>
    requires Fits(frame)
  {
    BigEndian(|frame|) + frame
  }

  datatype Outcome = CleanEnd | Broken(failure: Failure) | Frame(frame: seq<Byte>, rest: seq<Byte>)

  /** The frame at the head of a stream. */
  function Next(s: seq<Byte>): (o: Outcome)
    ensures o.Frame? ==> |o.rest| < |s|
  {
    if s == [] then CleanEnd
    else if |s| < 4 then Broken(UnexpectedEof)
    else
      var length := FromBigEndian(s[..4]);
      if length == 0 || length > MAX_FRAME_BYTES then Broken(InvalidData)
      else if |s| - 4 < length then Broken(UnexpectedEof)
      else Frame(s[4..4 + length], s[4 + length..])
  }

  /** Exactly when a stream has ended, is cut short (in a prefix, or in a frame of permitted size), or announces a
      frame that is empty or too long. */
  lemma {:induction false} FailsExactly(s: seq<Byte>)
    ensures Next(s).CleanEnd? <==> s == []
    ensures Next(s) == Broken(UnexpectedEof)
            <==> 0 < |s| < 4
                 || (|s| >= 4 && 1 <= FromBigEndian(s[..4]) <= MAX_FRAME_BYTES && |s| < 4 + FromBigEndian(s[..4]))
    ensures Next(s) == Broken(InvalidData)
            <==> |s| >= 4 && !(1 <= FromBigEndian(s[..4]) <= MAX_FRAME_BYTES)
  {
  }

  /** The frames of a stream, up to its end or to the first failure. */
  datatype Stream = Stream(frames: seq<seq<Byte>>, failure: Option<Failure>)

  function ReadAll(s: seq<Byte>): Stream
    decreases |s|
  {
    match Next(s)
    case CleanEnd => Stream([], None)
    case Broken(failure) => Stream([], Some(failure))
    case Frame(frame, rest) => var more := ReadAll(rest); Stream([frame] + more.frames, more.failure)
  }

  class Reader {
    const data: seq<Byte>
    var position: nat

    ghost predicate Valid()
      reads this
    {
      position <= |data|
    }

    function Ahead(): seq<Byte>
      requires Valid()
      reads this
    {
      data[position..]
    }

    constructor (data: seq<Byte>)
      ensures Valid() && Ahead() == data
    {
      this.data, position := data, 0;
    }

    /** Fills a buffer of `length` bytes or fails at the end of the stream. */
    method ReadExact(length: nat) returns (r: Result<seq<Byte>, Failure>)
      requires Valid()
      modifies this
      ensures Valid()
      ensures r.Ok? <==> length <= |old(Ahead())|
      ensures r.Ok? ==> r.value == old(Ahead())[..length] && Ahead() == old(Ahead())[length..]
      ensures r.Err? ==> r.error == UnexpectedEof
    {
      if |data| - position < length {
        position := |data|;
        return Err(UnexpectedEof);
      }
      r := Ok(data[position..position + length]);
      position := position + length;
    }

    method ReadFrame() returns (r: Result<Option<seq<Byte>>, Failure>)
      requires Valid()
      modifies this
      ensures Valid()
      ensures match Next(old(Ahead()))
              case CleanEnd => r == Ok(None) && Ahead() == []
              case Broken(failure) => r == Err(failure)
              case Frame(frame, rest) => r == Ok(Some(frame)) && Ahead() == rest
    {
      if position == |data| {
        return Ok(None);
      }
      ghost var before := Ahead();
      var first := data[position];
      position := position + 1;
      var others := ReadExact(3);
      if others.Err? {
        return Err(others.error);
      }
      var prefix := [first] + others.value;
      assert prefix == before[..4];
      var length := FromBigEndian(prefix);
      if length == 0 || length > MAX_FRAME_BYTES {
        return Err(InvalidData);
      }
      assert Ahead() == before[4..];
      var frame := ReadExact(length);
      if frame.Err? {
        return Err(frame.error);
      }
      assert Ahead() == before[4 + length..] && frame.value == before[4..4 + length];
      return Ok(Some(frame.value));
    }
  }

  class Writer {
    var written: seq<Byte>

    constructor ()
      ensures written == []
    {
      written := [];
    }

    method WriteFrame(frame: seq<Byte>) returns (r: Result<(), Failure>)
      modifies this
      ensures r == if Fits(frame) then Ok(()) else Err(InvalidInput)
      ensures written == old(written) + if Fits(frame) then Framed(frame) else []
    {
      if |frame| == 0 || |frame| > MAX_FRAME_BYTES || |frame| > 0xFFFF_FFFF {
        return Err(InvalidInput);
      }
      written := written + BigEndian(|frame|);
      written := written + frame;
      return Ok(());
    }

    /** A message serialised piece by piece goes out whole, as one frame, or not at all. */
    method WriteMessage(pieces: seq<seq<Byte>>) returns (r: Result<(), Failure>)
      modifies this
      ensures r.Ok? <==> Fits(Concatenated(pieces))
      ensures written == old(written) + if r.Ok? then Framed(Concatenated(pieces)) else []
    {
      var buffer := LimitedFrame(pieces);
      if buffer.Err? {
        return Err(InvalidData);
      }
      r := WriteFrame(buffer.value);
    }
  }

  /** The buffer that refuses to grow past one frame. */
  method LimitedFrame(pieces: seq<seq<Byte>>) returns (r: Result<seq<Byte>, Failure>)
    ensures r == if |Concatenated(pieces)| <= MAX_FRAME_BYTES then Ok(Concatenated(pieces)) else Err(InvalidData)
  {
    var buffer: seq<Byte> := [];
    for i := 0 to |pieces|
      invariant buffer + Concatenated(pieces[i..]) == Concatenated(pieces)
      invariant |buffer| <= MAX_FRAME_BYTES
    {
      assert pieces[i..][1..] == pieces[i + 1..];
      if |buffer| + |pieces[i]| > MAX_FRAME_BYTES {
        return Err(InvalidData);
      }
      buffer := buffer + pieces[i];
    }
    assert buffer == buffer + Concatenated([]);
    return Ok(buffer);
  }

  function Concatenated(pieces: seq<seq<Byte>>): seq<Byte> {
    if pieces == [] then [] else pieces[0] + Concatenated(pieces[1..])
  }

  predicate AllFit(frames: seq<seq<Byte>>) {
    forall i | 0 <= i < |frames| :: Fits(frames[i])
  }

  /** What writing the frames one after the other puts on the stream. */
  function Written(frames: seq<seq<Byte>>): seq<Byte>
    requires AllFit(frames)
  {
    if frames == [] then [] else Framed(frames[0]) + Written(frames[1..])
  }

  lemma {:induction false} NextFramed(frame: seq<Byte>, rest: seq<Byte>)
    requires Fits(frame)
    ensures Next(Framed(frame) + rest) == Frame(frame, rest)
  {
    var s := Framed(frame) + rest;
    BigEndianRoundTrip(|frame|);
    assert s[..4] == BigEndian(|frame|);
    assert s[4..4 + |frame|] == frame && s[4 + |frame|..] == rest;
  }

  /** Any part of a frame short of the whole, other than nothing, is a failure. */
  lemma {:induction false} NextCut(frame: seq<Byte>, k: nat)
    requires Fits(frame) && 0 < k < |Framed(frame)|
    ensures Next(Framed(frame)[..k]) == Broken(UnexpectedEof)
  {
    if k >= 4 {
      BigEndianRoundTrip(|frame|);
      assert Framed(frame)[..k][..4] == BigEndian(|frame|);
    }
  }

  /** Reading back frames written one after the other gives them, and then the clean end. */
  lemma {:induction false} RoundTrip(frames: seq<seq<Byte>>)
    requires AllFit(frames)
    ensures ReadAll(Written(frames)) == Stream(frames, None)
  {
    if frames == [] {
    } else {
      NextFramed(frames[0], Written(frames[1..]));
      RoundTrip(frames[1..]);
    }
  }

  /** The cut leaves `m` whole frames and then either nothing or part of the next. */
  predicate CutAt(frames: seq<seq<Byte>>, k: nat, m: nat)
    requires AllFit(frames) && k <= |Written(frames)|
  {
    m <= |frames| && |Written(frames[..m])| <= k
    && (m < |frames| ==> k < |Written(frames[..m + 1])|)
    && ReadAll(Written(frames)[..k])
       == Stream(frames[..m], if k == |Written(frames[..m])| then None else Some(UnexpectedEof))
  }

  /** Of a stream cut anywhere, the frames wholly before the cut are read, and then a clean end exactly when
      the cut falls between two frames. */
  lemma {:induction false} CutStream(frames: seq<seq<Byte>>, k: nat) returns (m: nat)
    requires AllFit(frames) && k <= |Written(frames)|
    ensures CutAt(frames, k, m)
  {
    m := 0;
    if frames == [] {
    } else {
      var head, tail := Framed(frames[0]), Written(frames[1..]);
      if k < |head| {
        assert frames[..1][1..] == [] && Written(frames[..1]) == head + [];
        assert Written(frames)[..k] == head[..k];
        if k > 0 {
          NextCut(frames[0], k);
        }
      } else {
        var n := CutStream(frames[1..], k - |head|);
        m := n + 1;
        CutPast(frames, k, n);
      }
    }
  }

  lemma {:induction false} CutPast(frames: seq<seq<Byte>>, k: nat, n: nat)
    requires AllFit(frames) && frames != [] && |Framed(frames[0])| <= k <= |Written(frames)|
    requires CutAt(frames[1..], k - |Framed(frames[0])|, n)
    ensures CutAt(frames, k, n + 1)
  {
    WrittenPrefix(frames, n + 1);
    if n + 1 < |frames| {
      WrittenPrefix(frames, n + 2);
    }
    CutAfterHead(frames, k);
    assert frames[..n + 1] == [frames[0]] + frames[1..][..n];
  }

  lemma {:induction false} WrittenPrefix(frames: seq<seq<Byte>>, m: nat)
    requires AllFit(frames) && 0 < m <= |frames|
    ensures Written(frames[..m]) == Framed(frames[0]) + Written(frames[1..][..m - 1])
  {
    assert frames[..m][1..] == frames[1..][..m - 1];
  }

  lemma {:induction false} CutAfterHead(frames: seq<seq<Byte>>, k: nat)
    requires AllFit(frames) && frames != [] && |Framed(frames[0])| <= k <= |Written(frames)|
    ensures var rest := ReadAll(Written(frames[1..])[..k - |Framed(frames[0])|]);
            ReadAll(Written(frames)[..k]) == Stream([frames[0]] + rest.frames, rest.failure)
  {
    var head, tail := Framed(frames[0]), Written(frames[1..]);
    assert Written(frames)[..k] == head + tail[..k - |head|];
    NextFramed(frames[0], tail[..k - |head|]);
  }

  /** Conversely, a stream that reads to a clean end is exactly what writing its frames produces: no two
      streams carry the same frames, and every frame read could have been written. */
  lemma {:induction false} CleanStreamIsWritten(s: seq<Byte>)
    requires ReadAll(s).failure == None
    ensures AllFit(ReadAll(s).frames) && Written(ReadAll(s).frames) == s
    decreases |s|
  {
    var next := Next(s);
    if !next.Frame? {
    } else {
      CleanStreamIsWritten(next.rest);
      NextIsFramed(s);
      assert ReadAll(s).frames[1..] == ReadAll(next.rest).frames;
    }
  }

  lemma {:induction false} NextIsFramed(s: seq<Byte>)
    requires Next(s).Frame?
    ensures Fits(Next(s).frame) && Framed(Next(s).frame) + Next(s).rest == s
  {
    BigEndianOnto(s[..4]);
  }
}

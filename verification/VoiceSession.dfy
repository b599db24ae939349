/** The listening session between the wake word and one command, over the wrapping counter. */
module VoiceSession {
  import opened Clock

  const LISTEN_WINDOW_MS := 5760

  datatype Session = Session(startedAt: Tick, listening: bool)

  const QUIET := Session(0, false)

  predicate InWindow(startedAt: Tick, at: Tick) {
    Since(at, startedAt) < LISTEN_WINDOW_MS
  }

  class VoiceSession {
    var startedAt: Tick
    var listening: bool

    function View(): Session
      reads this
    {
      Session(startedAt, listening)
    }

    constructor ()
      ensures View() == QUIET
    {
      startedAt, listening := 0, false;
    }

    method Begin(now: Tick) returns (begun: bool)
      modifies this
      ensures begun == !old(listening)
      ensures View() == Session(if begun then now else old(startedAt), true)
      ensures View() == Apply(old(View()), Call.Begin(now))
    {
      if listening {
        return false;
      }
      startedAt := now;
      listening := true;
      return true;
    }

    method Accept(now: Tick) returns (accepted: bool)
      modifies this
      ensures accepted == (old(listening) && InWindow(old(startedAt), now))
      ensures View() == Session(old(startedAt), false) == Apply(old(View()), Call.Accept(now))
    {
      if !listening {
        return false;
      }
      accepted := InWindow(startedAt, now);
      listening := false;
    }

    method Expire(now: Tick) returns (expired: bool)
      modifies this
      ensures expired == (old(listening) && !InWindow(old(startedAt), now))
      ensures View() == Session(old(startedAt), old(listening) && !expired) == Apply(old(View()), Call.Expire(now))
    {
      if !listening || InWindow(startedAt, now) {
        return false;
      }
      listening := false;
      return true;
    }
  }

  /** Calls in the order the worker makes them, with true times: of the worker's turn for a begin, of the
      detection, which may lie earlier, for an accept.  `End` is a session given up by the worker. */
  datatype Call = Begin(at: nat) | Accept(at: nat) | Expire(at: nat) | End

  function Apply(s: Session, c: Call): Session {
    match c
    case Begin(at) => if s.listening then s else Session(Millis(at), true)
    case Accept(_) => s.(listening := false)
    case Expire(at) => if s.listening && !InWindow(s.startedAt, Millis(at)) then s.(listening := false) else s
    case End => s.(listening := false)
  }

  function After(calls: seq<Call>, n: nat): Session
    requires n <= |calls|
  {
    if n == 0 then QUIET else Apply(After(calls, n - 1), calls[n - 1])
  }

  predicate Accepts(calls: seq<Call>, n: nat)
    requires n < |calls|
  {
    calls[n].Accept? && After(calls, n).listening && InWindow(After(calls, n).startedAt, Millis(calls[n].at))
  }

  /** Call `i` began the session that is open before call `n`. */
  predicate Opened(calls: seq<Call>, i: nat, n: nat)
    requires n <= |calls|
  {
    i < n && calls[i].Begin? && !After(calls, i).listening
    && forall k | i < k <= n :: After(calls, k) == Session(Millis(calls[i].at), true)
  }

  lemma {:induction false} SessionOrigin(calls: seq<Call>, n: nat) returns (i: nat)
    requires n <= |calls| && After(calls, n).listening
    ensures Opened(calls, i, n)
  {
    if After(calls, n - 1).listening {
      i := SessionOrigin(calls, n - 1);
    } else {
      i := n - 1;
    }
  }

  /** The counter's window in true time, also for a detection that lies before the session's begin, which
      is never in the window. */
  lemma {:induction false} WindowTrueTime(start: nat, at: nat)
    requires start - (WRAP - LISTEN_WINDOW_MS) <= at < start + WRAP
    ensures InWindow(Millis(start), Millis(at)) <==> start <= at < start + LISTEN_WINDOW_MS
  {
    if start <= at {
      SinceTrueTime(start, at);
    } else {
      SinceTrueTime(at, start);
      assert (Millis(at) - Millis(start)) % WRAP == WRAP - (start - at);
    }
  }

  /** A command is accepted exactly when a session is open and the command was detected within 5760 ms of
      true time from its begin; one detected before the session began is not. */
  lemma {:induction false} AcceptsExactly(calls: seq<Call>, n: nat) returns (i: nat)
    requires n < |calls| && calls[n].Accept? && After(calls, n).listening
    ensures Opened(calls, i, n)
    ensures Accepts(calls, n) <==> (calls[n].at - calls[i].at) % WRAP < LISTEN_WINDOW_MS
    ensures calls[i].at - (WRAP - LISTEN_WINDOW_MS) <= calls[n].at < calls[i].at + WRAP ==>
              (Accepts(calls, n) <==> calls[i].at <= calls[n].at < calls[i].at + LISTEN_WINDOW_MS)
  {
    i := SessionOrigin(calls, n);
    SinceModulo(calls[i].at, calls[n].at);
    if calls[i].at - (WRAP - LISTEN_WINDOW_MS) <= calls[n].at < calls[i].at + WRAP {
      WindowTrueTime(calls[i].at, calls[n].at);
    }
  }

  /** Each session accepts at most one command: between two accepted commands a new session began. */
  lemma {:induction false} OneCommandPerSession(calls: seq<Call>, m: nat, n: nat) returns (i: nat)
    requires m < n < |calls| && Accepts(calls, m) && Accepts(calls, n)
    ensures m < i < n && Opened(calls, i, n)
  {
    i := SessionOrigin(calls, n);
    assert !After(calls, m + 1).listening;
  }
}

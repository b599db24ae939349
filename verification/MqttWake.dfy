/** Wake-on-LAN over MQTT: a request issues a confirmation token with a capped lifetime, a confirmation sends
    the packet, and the main loop polls the PC and drops expired tokens. */
module MqttWake {
  import opened Clock

  const CONFIRM_EXPIRES_MAX_S := 3600
  const WAKE_RETRY_MS := 3000
  const WAKE_TIMEOUT_MS := 45000

  type Name = s: string | s != "" witness "cfm-00000000"

  /** The result of handing the packet to the network, with the true time just after it. */
  datatype Send = Failed | Sent(at: nat)

  datatype Reply =
    | WolSent | SendFailed | AlreadyPending | ConfirmationRequired(token: Name)
    | NoPendingRequest | InvalidToken | TokenExpired

  datatype Wake = Wake(pending: bool, token: string, expires: Tick, wakeId: string, wakeStart: Tick, lastCheck: Tick)

  const IDLE := Wake(false, "", 0, "", 0, 0)

  function Begun(w: Wake, id: Name, send: Send): (Wake, Reply) {
    match send
    case Failed => (w, SendFailed)
    case Sent(at) => (Wake(true, "", 0, id, Millis(at), Millis(at)), WolSent)
  }

  function Lifetime(expiresIn: nat): nat {
    (if expiresIn > CONFIRM_EXPIRES_MAX_S then CONFIRM_EXPIRES_MAX_S else expiresIn) * 1000
  }

  function Requested(w: Wake, force: bool, expiresIn: nat, token: Name, id: Name, at: nat, send: Send): (Wake, Reply) {
    if force then Begun(w, id, send)
    else if w.pending then (w, AlreadyPending)
    else (w.(token := token, expires := Millis(at + Lifetime(expiresIn)), wakeId := id), ConfirmationRequired(token))
  }

  function AttemptId(w: Wake, newId: Name): Name {
    if w.wakeId != "" then w.wakeId else newId
  }

  function Confirmed(w: Wake, token: string, newId: Name, at: nat, send: Send): (Wake, Reply) {
    if !w.pending && w.token == "" then (w, NoPendingRequest)
    else if token != w.token then (w, InvalidToken)
    else if Millis(at) > w.expires then (w.(token := "", wakeId := ""), TokenExpired)
    else Begun(w, AttemptId(w, newId), send)
  }

  function Cancelled(w: Wake): Wake {
    w.(token := "", wakeId := "", pending := false)
  }

  predicate Probes(w: Wake, at: nat) {
    w.pending && Since(Millis(at), w.lastCheck) >= WAKE_RETRY_MS
  }

  function Probed(w: Wake, at: nat, reachable: bool, later: nat): Wake {
    var checked := w.(lastCheck := Millis(at));
    if reachable || Since(Millis(later), w.wakeStart) >= WAKE_TIMEOUT_MS
    then checked.(pending := false, wakeId := "")
    else checked
  }

  function Cleaned(w: Wake, at: nat): Wake {
    if w.token != "" && Millis(at) > w.expires then w.(token := "", wakeId := "") else w
  }

  function Polled(w: Wake, at: nat, reachable: bool, later: nat): Wake {
    if !w.pending then Cleaned(w, later)
    else if Probes(w, at) then Cleaned(Probed(w, at, reachable, later), later)
    else w
  }

  class MqttWake {
    var pending: bool
    var token: string
    var expires: Tick
    var wakeId: string
    var wakeStart: Tick
    var lastCheck: Tick

    function View(): Wake
      reads this
    {
      Wake(pending, token, expires, wakeId, wakeStart, lastCheck)
    }

    constructor ()
      ensures View() == IDLE
    {
      pending, token, expires, wakeId, wakeStart, lastCheck := false, "", 0, "", 0, 0;
    }

    method BeginWake(id: Name, send: Send) returns (reply: Reply)
      modifies this
      ensures (View(), reply) == Begun(old(View()), id, send)
    {
      if send.Failed? {
        return SendFailed;
      }
      wakeId := id;
      pending := true;
      wakeStart := Millis(send.at);
      lastCheck := Millis(send.at);
      token := "";
      expires := 0;
      return WolSent;
    }

    method HandleRequest(force: bool, expiresIn: nat, newToken: Name, id: Name, at: nat, send: Send)
      returns (reply: Reply)
      modifies this
      ensures (View(), reply) == Requested(old(View()), force, expiresIn, newToken, id, at, send)
    {
      if force {
        reply := BeginWake(id, send);
        return;
      }
      if pending {
        return AlreadyPending;
      }
      var seconds := expiresIn;
      if seconds > CONFIRM_EXPIRES_MAX_S {
        seconds := CONFIRM_EXPIRES_MAX_S;
      }
      token := newToken;
      expires := (Millis(at) + seconds * 1000) % WRAP;
      MillisAdd(at, seconds * 1000);
      wakeId := id;
      return ConfirmationRequired(newToken);
    }

    method HandleConfirm(given: string, newId: Name, at: nat, send: Send) returns (reply: Reply)
      modifies this
      ensures (View(), reply) == Confirmed(old(View()), given, newId, at, send)
    {
      var attempt := if wakeId != "" then wakeId else newId;
      if !pending && token == "" {
        return NoPendingRequest;
      }
      if given != token {
        return InvalidToken;
      }
      if Millis(at) > expires {
        token := "";
        wakeId := "";
        return TokenExpired;
      }
      reply := BeginWake(attempt, send);
    }

    method HandleCancel()
      modifies this
      ensures View() == Cancelled(old(View()))
    {
      token := "";
      wakeId := "";
      pending := false;
    }

    /** The part of the main loop after the incoming messages; `reachable` is what a probe would answer, and
        `later` is the time after it. */
    method Poll(at: nat, reachable: bool, later: nat)
      modifies this
      ensures View() == Polled(old(View()), at, reachable, later)
    {
      if pending {
        if Since(Millis(at), lastCheck) < WAKE_RETRY_MS {
          return;
        }
        lastCheck := Millis(at);
        if reachable {
          pending := false;
          wakeId := "";
        } else if Since(Millis(later), wakeStart) >= WAKE_TIMEOUT_MS {
          pending := false;
          wakeId := "";
        }
      }
      if token != "" && Millis(later) > expires {
        token := "";
        wakeId := "";
      }
    }
  }

  // Runs.

  datatype Event =
    | Request(force: bool, expiresIn: nat, token: Name, id: Name, at: nat, send: Send)
    | Confirm(given: string, newId: Name, at: nat, send: Send)
    | Cancel(at: nat)
    | Poll(at: nat, reachable: bool, later: nat)

  function Apply(w: Wake, e: Event): Wake {
    match e
    case Request(force, expiresIn, token, id, at, send) => Requested(w, force, expiresIn, token, id, at, send).0
    case Confirm(given, newId, at, send) => Confirmed(w, given, newId, at, send).0
    case Cancel(_) => Cancelled(w)
    case Poll(at, reachable, later) => Polled(w, at, reachable, later)
  }

  function After(run: seq<Event>, n: nat): Wake
    requires n <= |run|
  {
    if n == 0 then IDLE else Apply(After(run, n - 1), run[n - 1])
  }

  /** When an event is over, in true time. */
  function End(e: Event): nat {
    match e
    case Poll(at, _, later) => if later > at then later else at
    case Request(_, _, _, _, at, Sent(sent)) => if sent > at then sent else at
    case Confirm(_, _, at, Sent(sent)) => if sent > at then sent else at
    case _ => e.at
  }

  predicate InOrder(run: seq<Event>) {
    (forall i, j | 0 <= i < j < |run| :: End(run[i]) <= run[j].at)
    && (forall i | 0 <= i < |run| && run[i].Poll? :: run[i].at <= run[i].later)
    && (forall i | 0 <= i < |run| && (run[i].Request? || run[i].Confirm?) && run[i].send.Sent? ::
          run[i].at <= run[i].send.at)
  }

  /** The event hands a packet to the network. */
  predicate Packet(w: Wake, e: Event) {
    (e.Request? && Requested(w, e.force, e.expiresIn, e.token, e.id, e.at, e.send).1 == WolSent)
    || (e.Confirm? && Confirmed(w, e.given, e.newId, e.at, e.send).1 == WolSent)
  }

  predicate Issues(w: Wake, e: Event) {
    e.Request? && Requested(w, e.force, e.expiresIn, e.token, e.id, e.at, e.send).1.ConfirmationRequired?
  }

  predicate PacketAt(run: seq<Event>, k: nat)
    requires k < |run|
  {
    Packet(After(run, k), run[k])
  }

  predicate IssuesAt(run: seq<Event>, k: nat)
    requires k < |run|
  {
    Issues(After(run, k), run[k])
  }

  // In every reachable state.

  predicate Inv(w: Wake) {
    (w.pending ==> w.token == "" && w.expires == 0)
    && (w.token != "" ==> w.wakeId != "")
    && (w.wakeId != "" ==> w.pending || w.token != "")
  }

  lemma {:induction false} ReachableInv(run: seq<Event>, n: nat)
    requires n <= |run|
    ensures Inv(After(run, n))
  {
    if n == 0 {
    } else {
      ReachableInv(run, n - 1);
    }
  }

  /** While a wake is pending, a confirmation, with whatever token, hands over another packet only when the
      counter reads exactly zero, where the empty token is taken as valid. */
  lemma {:induction false} ConfirmWhilePending(run: seq<Event>, n: nat)
    requires n < |run| && run[n].Confirm? && After(run, n).pending
    ensures PacketAt(run, n) <==> Millis(run[n].at) == 0 && run[n].given == "" && run[n].send.Sent?
    ensures After(run, n + 1).pending
  {
    ReachableInv(run, n);
  }

  /** The event neither cancels, replaces nor spends a token. */
  predicate Quiet(run: seq<Event>, j: nat)
    requires j < |run|
  {
    !run[j].Cancel? && !IssuesAt(run, j) && !PacketAt(run, j)
  }

  /** And neither does it drop one that expires at the given reading. */
  predicate Undisturbed(run: seq<Event>, j: nat, expires: Tick)
    requires j < |run|
  {
    Quiet(run, j)
    && (run[j].Poll? ==> Millis(run[j].later) <= expires)
  }

  /** A confirmed packet traces back to the request that issued its token. */
  predicate Traces(run: seq<Event>, i: nat, n: nat)
    requires n <= |run|
  {
    i < n && IssuesAt(run, i)
    && !After(run, n).pending && After(run, n).token == run[i].token
    && After(run, n).expires == Millis(Expiry(run[i])) && After(run, n).wakeId == run[i].id
    && forall j | i < j < n :: Undisturbed(run, j, After(run, n).expires)
  }

  /** An event that leaves a token either issued it or left it alone. */
  lemma {:induction false} TokenAfter(w: Wake, e: Event)
    requires Inv(w) && Apply(w, e).token != ""
    ensures !Apply(w, e).pending
    ensures if Issues(w, e)
            then Apply(w, e).token == e.token && Apply(w, e).expires == Millis(e.at + Lifetime(e.expiresIn))
                 && Apply(w, e).wakeId == e.id
            else Apply(w, e).token == w.token && Apply(w, e).expires == w.expires && Apply(w, e).wakeId == w.wakeId
                 && !e.Cancel? && !Packet(w, e)
                 && (e.Poll? ==> Millis(e.later) <= w.expires)
  {
  }

  lemma {:induction false} TokenOrigin(run: seq<Event>, n: nat) returns (i: nat)
    requires n <= |run| && After(run, n).token != ""
    ensures Traces(run, i, n)
  {
    ReachableInv(run, n - 1);
    TokenAfter(After(run, n - 1), run[n - 1]);
    if IssuesAt(run, n - 1) {
      i := n - 1;
    } else {
      i := TokenOrigin(run, n - 1);
    }
  }

  /** A confirmation taken while a wake is pending: at counter reading zero, with the empty token. */
  predicate SecondPacket(run: seq<Event>, k: nat)
    requires k < |run|
  {
    run[k].Confirm? && After(run, k).pending && Millis(run[k].at) == 0 && run[k].given == ""
  }

  /** Each packet sent on a confirmation goes back to one issued token: the latest issued, the one given, with
      no cancellation, no newer request and no packet in between; it goes out under the id of that request.
      The one exception is a second packet for the wake that is pending, at counter reading zero. */
  lemma {:induction false} PacketOrigin(run: seq<Event>, k: nat) returns (i: nat)
    requires k < |run| && run[k].Confirm? && PacketAt(run, k)
    ensures SecondPacket(run, k)
            || (Traces(run, i, k) && run[k].given == run[i].token && After(run, k + 1).wakeId == run[i].id)
  {
    i := 0;
    if After(run, k).pending {
      ConfirmWhilePending(run, k);
    } else {
      i := TokenOrigin(run, k);
    }
  }

  /** Hence a token is spent by its packet: two confirmed packets, neither of them a second packet, come from
      two issued tokens. */
  lemma {:induction false} OnePacketPerToken(run: seq<Event>, k: nat, l: nat) returns (i: nat, j: nat)
    requires k < l < |run| && run[k].Confirm? && run[l].Confirm? && PacketAt(run, k) && PacketAt(run, l)
    requires !SecondPacket(run, k) && !SecondPacket(run, l)
    ensures Traces(run, i, k) && Traces(run, j, l) && i < k < j < l
  {
    i := PacketOrigin(run, k);
    j := PacketOrigin(run, l);
    assert run[j].Request? && run[k].Confirm?;
    forall n | j < n < l
      ensures !PacketAt(run, n)
    {
      assert Undisturbed(run, n, After(run, l).expires);
    }
  }

  // Lifetimes, in true time.

  /** The plain comparison of counter readings against the true comparison, exactly: they agree when both
      times lie between the same two wraps, or when the later one is past the expiry both in its number of
      wraps and in its reading. */
  lemma {:induction false} PlainTestExact(expiry: nat, now: nat)
    requires expiry < now + WRAP
    ensures (Millis(now) > Millis(expiry) <==> now > expiry)
            <==> now / WRAP == expiry / WRAP || (now / WRAP > expiry / WRAP && now % WRAP > expiry % WRAP)
  {
    var a, b := now / WRAP, expiry / WRAP;
    assert now == a * WRAP + now % WRAP && expiry == b * WRAP + expiry % WRAP;
    if a < b {
      assert a + 1 <= b;
      EarlierWrap(now, expiry);
    } else if b < a {
      EarlierWrap(expiry, now);
    }
  }

  lemma {:induction false} EarlierWrap(s: nat, t: nat)
    requires s / WRAP < t / WRAP
    ensures s < t
  {
  }

  /** A confirmed packet leaves within the capped lifetime of its token exactly when the counter has not
      wrapped since the expiry. */
  lemma {:induction false} WithinLifetime(run: seq<Event>, k: nat, i: nat)
    requires InOrder(run) && k < |run| && run[k].Confirm? && PacketAt(run, k)
    requires Traces(run, i, k)
    ensures var expiry := run[i].at + 1000 * (if run[i].expiresIn <= 3600 then run[i].expiresIn else 3600);
            run[i].at <= run[k].at <= expiry <==> run[k].at / WRAP == expiry / WRAP
  {
    assert End(run[i]) <= run[k].at;
    NotPastExpiry(run[i].at + Lifetime(run[i].expiresIn), run[k].at);
  }

  /** A late packet also needs the loop to have stood still: no poll at all ran between the expiry and the
      next wrap of the counter. */
  lemma {:induction false} LatePacketMeansNoPoll(run: seq<Event>, k: nat, i: nat, j: nat)
    requires k < |run| && Traces(run, i, k) && i < j < k && run[j].Poll?
    ensures var expiry := run[i].at + Lifetime(run[i].expiresIn);
            !(run[j].later > expiry && run[j].later / WRAP == expiry / WRAP)
  {
    assert Undisturbed(run, j, After(run, k).expires);
    NotPastExpiry(run[i].at + Lifetime(run[i].expiresIn), run[j].later);
  }

  lemma {:induction false} NotPastExpiry(expiry: nat, now: nat)
    requires Millis(now) <= Millis(expiry)
    ensures !(now > expiry && now / WRAP == expiry / WRAP)
    ensures expiry < now + WRAP ==> (now <= expiry <==> now / WRAP == expiry / WRAP)
  {
    if expiry < now + WRAP {
      PlainTestExact(expiry, now);
      if expiry / WRAP < now / WRAP {
        EarlierWrap(expiry, now);
      }
    }
  }

  /** The input at which it happens: a wake forced one second before the counter wraps, and an empty token at
      the wrap. */
  lemma {:induction false} SecondPacketHappens(id: Name)
    ensures var run := [Request(true, 30, "cfm-00000001", id, WRAP - 1000, Sent(WRAP - 1000)),
                        Confirm("", id, WRAP, Sent(WRAP))];
            InOrder(run) && PacketAt(run, 0) && SecondPacket(run, 1) && PacketAt(run, 1)
  {
    var run := [Request(true, 30, "cfm-00000001", id, WRAP - 1000, Sent(WRAP - 1000)),
                Confirm("", id, WRAP, Sent(WRAP))];
    assert After(run, 0) == IDLE;
    assert After(run, 1) == Apply(IDLE, run[0]);
  }

  // What each message is answered with.

  /** In every run, a request is answered by a packet when it is forced and the network takes the packet, is
      turned away when a wake is pending, and otherwise gets its token, good for what it asked for and at most
      an hour; only the first and the last change anything. */
  lemma {:induction false} RequestExactly(run: seq<Event>, n: nat)
    requires n < |run| && run[n].Request?
    ensures var w, after, e := After(run, n), After(run, n + 1), run[n];
            (PacketAt(run, n) <==> e.force && e.send.Sent?)
            && (IssuesAt(run, n) <==> !e.force && !w.pending)
            && (PacketAt(run, n) ==> after.pending && after.token == "" && after.wakeId == e.id)
            && (IssuesAt(run, n) ==>
                  !after.pending && after.token == e.token && after.wakeId == e.id
                  && after.expires == (e.at + 1000 * (if e.expiresIn <= 3600 then e.expiresIn else 3600)) % WRAP)
            && (!PacketAt(run, n) && !IssuesAt(run, n) ==> after == w)
  {
  }

  /** In every run, a confirmation that sends no packet changes nothing, unless it has the right token too late,
      which drops the token; a failed packet leaves the token for another try. */
  lemma {:induction false} ConfirmExactly(run: seq<Event>, n: nat)
    requires n < |run| && run[n].Confirm? && !After(run, n).pending
    ensures var w, after, e := After(run, n), After(run, n + 1), run[n];
            (PacketAt(run, n) <==> w.token != "" && e.given == w.token && Millis(e.at) <= w.expires && e.send.Sent?)
            && (PacketAt(run, n) ==> after.pending && after.token == "")
            && (!PacketAt(run, n) ==>
                  !after.pending
                  && after.token == if e.given == w.token && Millis(e.at) > w.expires then "" else w.token)
  {
    ReachableInv(run, n);
  }

  // When the right token is honoured.

  /** The event tests whether the token has expired: a poll, or a confirmation with the token. */
  predicate Tests(e: Event, token: Name) {
    e.Poll? || (e.Confirm? && e.given == token)
  }

  function TestedAt(e: Event): nat
    requires e.Poll? || e.Confirm?
  {
    if e.Poll? then e.later else e.at
  }

  function Expiry(issue: Event): nat
    requires issue.Request?
  {
    issue.at + Lifetime(issue.expiresIn)
  }

  /** Event `j` leaves the token of event `i` its chance: it does not cancel or replace it, sends no packet, and
      if it tests the token, it does so within the lifetime. */
  predicate Lenient(run: seq<Event>, i: nat, j: nat)
    requires i < |run| && j < |run| && run[i].Request?
  {
    Quiet(run, j)
    && (Tests(run[j], run[i].token) ==> run[i].at <= TestedAt(run[j]) <= Expiry(run[i]))
  }

  predicate InTime(run: seq<Event>, i: nat, n: nat)
    requires n <= |run|
  {
    i < n && IssuesAt(run, i) && forall j | i < j < n :: Lenient(run, i, j)
  }

  /** If event `j` tests the token, the counter does not wrap between the test and the expiry. */
  predicate SameWrap(run: seq<Event>, i: nat, j: nat)
    requires i < |run| && j < |run| && run[i].Request?
  {
    Tests(run[j], run[i].token) ==> TestedAt(run[j]) / WRAP == Expiry(run[i]) / WRAP
  }

  predicate AllSameWrap(run: seq<Event>, i: nat, n: nat)
    requires i < |run| && n <= |run| && run[i].Request?
  {
    forall j | i < j < n :: SameWrap(run, i, j)
  }

  /** The token of call `i` is still there, or is gone. */
  predicate Keeps(w: Wake, e: Event)
    requires e.Request?
  {
    !w.pending && w.token == e.token && w.expires == Millis(Expiry(e))
  }

  predicate Lost(w: Wake) {
    !w.pending && w.token == ""
  }

  lemma {:induction false} WithinLifetimeTest(expiry: nat, now: nat)
    requires now <= expiry < now + WRAP
    ensures Millis(now) <= Millis(expiry) <==> now / WRAP == expiry / WRAP
  {
    PlainTestExact(expiry, now);
    if expiry / WRAP < now / WRAP {
      EarlierWrap(expiry, now);
    }
  }

  lemma {:induction false} TestKeeps(w: Wake, issue: Event, e: Event)
    requires issue.Request? && Keeps(w, issue) && !e.Cancel? && !Issues(w, e) && !Packet(w, e)
    ensures Tests(e, issue.token) && Millis(TestedAt(e)) > w.expires ==> Lost(Apply(w, e))
    ensures !(Tests(e, issue.token) && Millis(TestedAt(e)) > w.expires) ==> Keeps(Apply(w, e), issue)
  {
  }

  lemma {:induction false} LostStays(w: Wake, e: Event)
    requires Lost(w) && !Issues(w, e) && !Packet(w, e)
    ensures Lost(Apply(w, e))
  {
  }

  lemma {:induction false} LenientStep(run: seq<Event>, i: nat, m: nat)
    requires i < m < |run| && run[i].Request? && Lenient(run, i, m) && Keeps(After(run, m), run[i])
    ensures if SameWrap(run, i, m) then Keeps(After(run, m + 1), run[i]) else Lost(After(run, m + 1))
  {
    TestKeeps(After(run, m), run[i], run[m]);
    if Tests(run[m], run[i].token) {
      WithinLifetimeTest(Expiry(run[i]), TestedAt(run[m]));
    }
  }

  lemma {:induction false} TokenKept(run: seq<Event>, i: nat, n: nat)
    requires n <= |run| && InTime(run, i, n)
    ensures if AllSameWrap(run, i, n) then Keeps(After(run, n), run[i]) else Lost(After(run, n))
  {
    var m := n - 1;
    if i == m {
    } else {
      TokenKept(run, i, m);
      assert Lenient(run, i, m);
      assert AllSameWrap(run, i, n) <==> AllSameWrap(run, i, m) && SameWrap(run, i, m);
      if AllSameWrap(run, i, m) {
        LenientStep(run, i, m);
      } else {
        LostStays(After(run, m), run[m]);
      }
    }
  }

  lemma {:induction false} NothingInBetween(run: seq<Event>, i: nat, k: nat)
    requires InOrder(run) && i < k < |run| && IssuesAt(run, i) && run[k].at <= Expiry(run[i])
    requires forall j | i < j < k :: Quiet(run, j)
    ensures InTime(run, i, k) && run[i].at <= run[k].at
  {
    Ordered(run, i, k);
    forall j | i < j < k
      ensures Lenient(run, i, j)
    {
      assert Quiet(run, j);
      Ordered(run, i, j);
      Ordered(run, j, k);
    }
  }

  lemma {:induction false} HonouredNow(w: Wake, issue: Event, e: Event)
    requires issue.Request? && e.Confirm? && e.given == issue.token && e.send.Sent?
    requires issue.at <= e.at <= Expiry(issue)
    ensures Keeps(w, issue) ==> (Packet(w, e) <==> e.at / WRAP == Expiry(issue) / WRAP)
    ensures Lost(w) ==> !Packet(w, e)
  {
    WithinLifetimeTest(Expiry(issue), e.at);
  }

  /** The right token, confirmed within its lifetime with nothing in between that cancels, replaces or spends
      it, sends its packet exactly when the counter does not wrap between any test of it, this one included,
      and its expiry. */
  lemma {:induction false} HonouredExactly(run: seq<Event>, i: nat, k: nat)
    requires InOrder(run) && i < k < |run| && IssuesAt(run, i)
    requires forall j | i < j < k :: Quiet(run, j)
    requires run[k].Confirm? && run[k].given == run[i].token && run[k].send.Sent?
    requires run[k].at <= Expiry(run[i])
    ensures PacketAt(run, k) <==> AllSameWrap(run, i, k + 1)
  {
    NothingInBetween(run, i, k);
    TokenKept(run, i, k);
    HonouredNow(After(run, k), run[i], run[k]);
    assert AllSameWrap(run, i, k + 1) <==> AllSameWrap(run, i, k) && SameWrap(run, i, k);
  }

  /** What the wrap does: a token of 30 s issued one millisecond after the start still sends a packet 49 days
      later if nothing polled in between, and one issued one second before the wrap is refused half a second
      later. */
  lemma {:induction false} WrapBreaksExpiry(id: Name)
    ensures var late := [Request(false, 30, "cfm-00000001", id, 1, Failed),
                         Confirm("cfm-00000001", id, WRAP + 5, Sent(WRAP + 5))];
            InOrder(late) && Packet(After(late, 1), late[1]) && late[1].at > late[0].at + Lifetime(30)
    ensures var early := [Request(false, 30, "cfm-00000001", id, WRAP - 1000, Failed),
                          Confirm("cfm-00000001", id, WRAP - 500, Sent(WRAP - 500))];
            InOrder(early)
            && Confirmed(After(early, 1), early[1].given, id, early[1].at, early[1].send).1 == TokenExpired
            && early[1].at <= early[0].at + Lifetime(30)
  {
    var late := [Request(false, 30, "cfm-00000001", id, 1, Failed),
                 Confirm("cfm-00000001", id, WRAP + 5, Sent(WRAP + 5))];
    assert After(late, 1) == Apply(IDLE, late[0]);
    var early := [Request(false, 30, "cfm-00000001", id, WRAP - 1000, Failed),
                  Confirm("cfm-00000001", id, WRAP - 500, Sent(WRAP - 500))];
    assert After(early, 1) == Apply(IDLE, early[0]);
  }

  // Polling the PC.

  predicate ProbeAt(run: seq<Event>, n: nat)
    requires n < |run|
  {
    run[n].Poll? && Probes(After(run, n), run[n].at)
  }

  /** The events that leave a wake pending: packets, probes, and those that leave its marks alone. */
  lemma {:induction false} StillPending(w: Wake, e: Event)
    requires Apply(w, e).pending
    ensures Packet(w, e) ==> Apply(w, e).lastCheck == Millis(e.send.at)
    ensures e.Poll? && Probes(w, e.at) ==> Apply(w, e).lastCheck == Millis(e.at)
    ensures !Packet(w, e) && !(e.Poll? && Probes(w, e.at)) ==> w.pending && Apply(w, e).lastCheck == w.lastCheck
  {
  }

  /** While a wake is pending, the latest packet or probe is what the next probe is measured from. */
  lemma {:induction false} LastMark(run: seq<Event>, n: nat) returns (m: nat, mark: nat)
    requires InOrder(run) && n <= |run| && After(run, n).pending
    ensures m < n && (PacketAt(run, m) || ProbeAt(run, m))
    ensures run[m].at <= mark <= End(run[m]) && After(run, n).lastCheck == Millis(mark)
    ensures forall j | m < j < n :: !ProbeAt(run, j) && !PacketAt(run, j)
  {
    var l := n - 1;
    StillPending(After(run, l), run[l]);
    if PacketAt(run, l) {
      m, mark := l, run[l].send.at;
    } else if ProbeAt(run, l) {
      m, mark := l, run[l].at;
    } else {
      m, mark := LastMark(run, l);
    }
  }

  /** Probes are at least 3000 ms of true time apart, and a probe comes at least 3000 ms after a packet. */
  lemma {:induction false} ProbesFarApart(run: seq<Event>, i: nat, j: nat)
    requires InOrder(run) && i < j < |run| && ProbeAt(run, j) && (ProbeAt(run, i) || PacketAt(run, i))
    ensures run[j].at - run[i].at >= WAKE_RETRY_MS
  {
    var m, mark := LastMark(run, j);
    assert i <= m;
    Ordered(run, m, j);
    if i < m {
      Ordered(run, i, m);
    }
    SinceTrueTime(mark, run[j].at);
  }

  /** A poll probes exactly when a wake is pending and 3000 ms have passed, modulo the counter's wrap, since the
      latest packet or probe. */
  lemma {:induction false} ProbesExactly(run: seq<Event>, n: nat) returns (m: nat, mark: nat)
    requires InOrder(run) && n < |run| && run[n].Poll? && After(run, n).pending
    ensures m < n && (PacketAt(run, m) || ProbeAt(run, m)) && run[m].at <= mark <= End(run[m])
    ensures forall j | m < j < n :: !ProbeAt(run, j) && !PacketAt(run, j)
    ensures ProbeAt(run, n) <==> (run[n].at - mark) % WRAP >= 3000
  {
    m, mark := LastMark(run, n);
    SinceModulo(mark, run[n].at);
  }

  lemma {:induction false} Ordered(run: seq<Event>, i: nat, j: nat)
    requires InOrder(run) && i < j < |run|
    ensures run[i].at <= End(run[i]) <= run[j].at
  {
  }

  lemma {:induction false} StillWaking(w: Wake, e: Event)
    requires Apply(w, e).pending
    ensures if Packet(w, e) then Apply(w, e).wakeStart == Millis(e.send.at)
            else w.pending && Apply(w, e).wakeStart == w.wakeStart && !e.Cancel?
  {
  }

  predicate NothingSince(run: seq<Event>, m: nat, n: nat)
    requires n <= |run|
  {
    forall k | m < k < n :: !PacketAt(run, k) && !run[k].Cancel?
  }

  lemma {:induction false} StillNothing(run: seq<Event>, m: nat, n: nat)
    requires m < n <= |run| && NothingSince(run, m, n - 1)
    requires m < n - 1 ==> !PacketAt(run, n - 1) && !run[n - 1].Cancel?
    ensures NothingSince(run, m, n)
  {
  }

  /** A pending wake goes back to the latest packet, with no cancellation since. */
  lemma {:induction false} WakeSince(run: seq<Event>, n: nat) returns (m: nat)
    requires n <= |run| && After(run, n).pending
    ensures m < n && PacketAt(run, m) && After(run, n).wakeStart == Millis(run[m].send.at)
    ensures NothingSince(run, m, n)
  {
    StillWaking(After(run, n - 1), run[n - 1]);
    if Packet(After(run, n - 1), run[n - 1]) {
      m := n - 1;
    } else {
      m := WakeSince(run, n - 1);
      StillNothing(run, m, n);
    }
  }

  lemma {:induction false} ProbeEnds(w: Wake, e: Event, sent: nat)
    requires e.Poll? && Probes(w, e.at) && w.wakeStart == Millis(sent) && sent <= e.later
    ensures Apply(w, e).pending <==> !e.reachable && (e.later - sent) % WRAP < WAKE_TIMEOUT_MS
    ensures e.later - sent < WRAP ==> (e.later - sent) % WRAP == e.later - sent
  {
    SinceTrueTime(sent, e.later);
  }

  /** A probe ends the wake exactly when the PC answers or 45000 ms of true time have passed since the
      packet. */
  lemma {:induction false} ProbeDecides(run: seq<Event>, n: nat) returns (m: nat)
    requires InOrder(run) && n < |run| && ProbeAt(run, n)
    ensures m < n && PacketAt(run, m) && NothingSince(run, m, n)
    ensures After(run, n + 1).pending
            <==> !run[n].reachable && (run[n].later - run[m].send.at) % WRAP < WAKE_TIMEOUT_MS
    ensures run[n].later - run[m].send.at < WRAP ==>
              (After(run, n + 1).pending <==>
               !run[n].reachable && run[n].later - run[m].send.at < WAKE_TIMEOUT_MS)
  {
    m := WakeSince(run, n);
    Ordered(run, m, n);
    ProbeEnds(After(run, n), run[n], run[m].send.at);
  }
}

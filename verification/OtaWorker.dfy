/** The upload window: the policy over the wrapping counter, and the worker that polls the button, the
    network and the upload library. */
module OtaWorker {
  import opened Clock
  import opened OtaButton

  const WINDOW_MS := 120000
  const TRANSFER_TIMEOUT_MS := 180000

  datatype OtaState = Closed | WindowOpen | Transferring

  datatype Policy = Policy(state: OtaState, windowStartedAt: Tick, transferStartedAt: Tick)

  function Opened(p: Policy, now: Tick, configured: bool, connected: bool): (Policy, bool) {
    if p.state != Closed || !configured || !connected then (p, false)
    else (p.(state := WindowOpen, windowStartedAt := now), true)
  }

  predicate WindowOver(p: Policy, now: Tick) {
    p.state == WindowOpen && Since(now, p.windowStartedAt) >= WINDOW_MS
  }

  function TransferBegun(p: Policy, now: Tick, configured: bool, connected: bool, appImage: bool): (Policy, bool) {
    if p.state == WindowOpen && configured && connected && appImage && !WindowOver(p, now)
    then (p.(state := Transferring, transferStartedAt := now), true)
    else (if WindowOver(p, now) then p.(state := Closed) else p, false)
  }

  predicate TransferOver(p: Policy, now: Tick) {
    p.state == Transferring && Since(now, p.transferStartedAt) >= TRANSFER_TIMEOUT_MS
  }

  class OtaPolicy {
    var state: OtaState
    var windowStartedAt: Tick
    var transferStartedAt: Tick

    function View(): Policy
      reads this
    {
      Policy(state, windowStartedAt, transferStartedAt)
    }

    constructor ()
      ensures View() == Policy(Closed, 0, 0)
    {
      state, windowStartedAt, transferStartedAt := Closed, 0, 0;
    }

    method OpenWindow(now: Tick, configured: bool, connected: bool) returns (isOpen: bool)
      modifies this
      ensures (View(), isOpen) == Opened(old(View()), now, configured, connected)
      ensures isOpen <==> old(state) == Closed && configured && connected
      ensures if isOpen then state == WindowOpen && windowStartedAt == now else View() == old(View())
    {
      if state != Closed || !configured || !connected {
        return false;
      }
      state := WindowOpen;
      windowStartedAt := now;
      return true;
    }

    method ExpireWindow(now: Tick) returns (expired: bool)
      modifies this
      ensures expired <==> WindowOver(old(View()), now)
      ensures View() == if expired then old(View()).(state := Closed) else old(View())
    {
      if state != WindowOpen || Since(now, windowStartedAt) < WINDOW_MS {
        return false;
      }
      state := Closed;
      return true;
    }

    method BeginTransfer(now: Tick, configured: bool, connected: bool, appImage: bool) returns (begun: bool)
      modifies this
      ensures (View(), begun) == TransferBegun(old(View()), now, configured, connected, appImage)
      ensures var inWindow := old(state) == WindowOpen && Since(now, old(windowStartedAt)) < 120000;
              (begun <==> inWindow && configured && connected && appImage)
              && state == (if begun then Transferring
                           else if old(state) == WindowOpen && !inWindow then Closed else old(state))
              && transferStartedAt == (if begun then now else old(transferStartedAt))
    {
      if state != WindowOpen || !configured || !connected || !appImage || Since(now, windowStartedAt) >= WINDOW_MS {
        if state == WindowOpen && Since(now, windowStartedAt) >= WINDOW_MS {
          state := Closed;
        }
        return false;
      }
      state := Transferring;
      transferStartedAt := now;
      return true;
    }

    method TransferExpired(now: Tick) returns (expired: bool)
      ensures expired <==> TransferOver(View(), now)
    {
      return state == Transferring && Since(now, transferStartedAt) >= TRANSFER_TIMEOUT_MS;
    }

    method Close()
      modifies this
      ensures View() == old(View()).(state := Closed)
    {
      state := Closed;
    }
  }

  // One poll of the worker.

  /** What one call of the upload library does: nothing, an error before any start, or a session: the start
      callback at a true time, progress callbacks, and an end (the board restarts) or an error. */
  datatype Handle =
    | Idle
    | ErrorOnly
    | Session(startAt: nat, configured: bool, connected: bool, appImage: bool, progress: seq<nat>, ends: bool)

  /** The network is read twice in one poll: for the open window, and again when the button fires. */
  datatype Poll = Poll(
    at: nat, pressed: bool, connected: bool, connectedAtFire: bool, configured: bool, handle: Handle)

  datatype Worker = Worker(
    policy: Policy, listenerStarted: bool, transferStarted: bool, terminalFailure: bool, restarted: bool)

  const STARTED := Worker(Policy(Closed, 0, 0), false, false, false, false)

  function Stopped(w: Worker): Worker {
    w.(policy := w.policy.(state := Closed),
       listenerStarted := false, transferStarted := false, terminalFailure := false)
  }

  /** The window test at the top of the loop. */
  function Checked(w: Worker, p: Poll): Worker {
    if w.policy.state == WindowOpen && (!p.connected || WindowOver(w.policy, Millis(p.at))) then Stopped(w) else w
  }

  predicate OpensWindow(w: Worker, fires: bool, p: Poll) {
    fires && Checked(w, p).policy.state == Closed && p.configured && p.connectedAtFire
  }

  function Pressed(w: Worker, fires: bool, p: Poll): Worker {
    var checked := Checked(w, p);
    if OpensWindow(w, fires, p)
    then checked.(policy := Opened(checked.policy, Millis(p.at), true, true).0,
                  listenerStarted := true, transferStarted := false, terminalFailure := false)
    else checked
  }

  predicate Admits(w: Worker, h: Handle)
    requires h.Session?
  {
    TransferBegun(w.policy, Millis(h.startAt), h.configured, h.connected, h.appImage).1
  }

  function AfterStart(w: Worker, h: Handle): Worker
    requires h.Session?
  {
    var (policy, begun) := TransferBegun(w.policy, Millis(h.startAt), h.configured, h.connected, h.appImage);
    if begun then w.(policy := policy, transferStarted := true) else w.(policy := policy, terminalFailure := true)
  }

  /** Some progress callback finds the transfer past its deadline and restarts the board. */
  predicate PastDeadline(w: Worker, progress: seq<nat>) {
    w.transferStarted && exists k | 0 <= k < |progress| :: TransferOver(w.policy, Millis(progress[k]))
  }

  function Settle(w: Worker): Worker {
    if w.terminalFailure then Stopped(w) else w
  }

  function Handled(w: Worker, h: Handle): Worker {
    match h
    case Idle => Settle(w)
    case ErrorOnly => Stopped(w)
    case Session(_, _, _, _, progress, ends) =>
      var inside := AfterStart(w, h);
      if PastDeadline(inside, progress) then inside.(restarted := true)
      else if ends then
        inside.(policy := inside.policy.(state := Closed), transferStarted := false, restarted := true)
      else Stopped(inside)
  }

  predicate Handles(w: Worker) {
    w.listenerStarted && w.policy.state == WindowOpen
  }

  function Polled(w: Worker, fires: bool, p: Poll): Worker {
    var pressed := Pressed(w, fires, p);
    if Handles(pressed) then Handled(pressed, p.handle) else pressed
  }

  predicate StartsTransfer(w: Worker, fires: bool, p: Poll) {
    var pressed := Pressed(w, fires, p);
    Handles(pressed) && p.handle.Session? && Admits(pressed, p.handle)
  }

  class Service {
    const policy: OtaPolicy
    const button: OtaButtonGate
    var listenerStarted: bool
    var transferStarted: bool
    var terminalFailure: bool
    var restarted: bool

    function View(): Worker
      reads this, policy
    {
      Worker(policy.View(), listenerStarted, transferStarted, terminalFailure, restarted)
    }

    constructor (pressed: bool, at: nat)
      ensures View() == STARTED && button.View() == Begun(pressed, Millis(at)) && fresh(policy) && fresh(button)
    {
      policy := new OtaPolicy();
      button := new OtaButtonGate();
      listenerStarted, transferStarted, terminalFailure, restarted := false, false, false, false;
      new;
      button.Begin(pressed, Millis(at));
    }

    method StopListener()
      modifies this`listenerStarted, this`transferStarted, this`terminalFailure, policy
      ensures View() == Stopped(old(View()))
    {
      listenerStarted, transferStarted, terminalFailure := false, false, false;
      policy.Close();
    }

    /** The body of the worker's loop. */
    method PollOnce(p: Poll)
      requires !restarted
      modifies this, policy, button
      ensures var (gate, fires) := Sampled(old(button.View()), p.pressed, Millis(p.at));
              button.View() == gate && View() == Polled(old(View()), fires, p)
    {
      if policy.state == WindowOpen {
        if !p.connected {
          StopListener();
        } else {
          var expired := policy.ExpireWindow(Millis(p.at));
          if expired {
            StopListener();
          }
        }
      }
      var fired := button.Sample(p.pressed, Millis(p.at));
      if fired {
        var isOpen := policy.OpenWindow(Millis(p.at), p.configured, p.connectedAtFire);
        if isOpen {
          terminalFailure, transferStarted, listenerStarted := false, false, true;
        }
      }
      if listenerStarted && policy.state == WindowOpen {
        RunHandle(p.handle);
      }
    }

    /** `ArduinoOTA.handle()` with its callbacks, and the check after it. */
    method RunHandle(h: Handle)
      requires listenerStarted && policy.state == WindowOpen && !restarted
      modifies this`listenerStarted, this`transferStarted, this`terminalFailure, this`restarted, policy
      ensures View() == Handled(old(View()), h)
    {
      match h {
        case Idle =>
        case ErrorOnly => terminalFailure := true;
        case Session(startAt, configured, connected, appImage, progress, ends) =>
          var begun := policy.BeginTransfer(Millis(startAt), configured, connected, appImage);
          if begun {
            transferStarted := true;
          } else {
            terminalFailure := true;
          }
          ghost var inside := View();
          for k := 0 to |progress|
            invariant View() == inside
            invariant forall j | 0 <= j < k :: !(transferStarted && TransferOver(policy.View(), Millis(progress[j])))
          {
            var over := policy.TransferExpired(Millis(progress[k]));
            if transferStarted && over {
              restarted := true;
              return;
            }
          }
          if ends {
            transferStarted := false;
            policy.Close();
            restarted := true;
            return;
          }
          terminalFailure := true;
      }
      if terminalFailure {
        StopListener();
      }
    }
  }

  // Runs.

  /** A run: the first reading of the button, the polls, and what the gate answered at each. */
  datatype Run = Run(pressed: bool, at: nat, polls: seq<Poll>, fires: seq<bool>)

  function After(r: Run, n: nat): Worker
    requires n <= |r.polls| == |r.fires|
  {
    if n == 0 then STARTED else Polled(After(r, n - 1), r.fires[n - 1], r.polls[n - 1])
  }

  /** The board does not poll again after a restart. */
  predicate Polls(r: Run) {
    |r.polls| == |r.fires| && forall i | 0 <= i < |r.polls| :: !After(r, i).restarted
  }

  /** True times: polls never go back and are less than a wrap minus one window apart, and a start callback
      lies after its poll. */
  predicate Timed(r: Run) {
    Polls(r)
    && (forall i, j | 0 <= i <= j < |r.polls| :: r.polls[i].at <= r.polls[j].at)
    && forall i | 0 <= i < |r.polls| ::
         (i > 0 ==> r.polls[i].at - r.polls[i - 1].at < WRAP - WINDOW_MS)
         && (r.polls[i].handle.Session? ==> 0 <= r.polls[i].handle.startAt - r.polls[i].at < WRAP - WINDOW_MS)
  }

  function Readings(r: Run): seq<Reading> {
    [Reading(r.pressed, r.at)]
    + seq(|r.polls|, i requires 0 <= i < |r.polls| => Reading(r.polls[i].pressed, r.polls[i].at))
  }

  /** A timed run whose answers are those of the button gate on the readings. */
  predicate Proper(r: Run) {
    Timed(r) && InOrder(Readings(r))
    && forall i | 0 <= i < |r.polls| :: r.fires[i] == Fires(Readings(r), i + 1)
  }

  predicate Opens(r: Run, i: nat)
    requires i < |r.polls| == |r.fires|
  {
    OpensWindow(After(r, i), r.fires[i], r.polls[i])
  }

  predicate Starts(r: Run, i: nat)
    requires i < |r.polls| == |r.fires|
  {
    StartsTransfer(After(r, i), r.fires[i], r.polls[i])
  }

  /** At the head of the loop the listener runs exactly while the policy is not closed, no transfer is under
      way and no failure is pending. */
  predicate Tidy(w: Worker) {
    w.restarted
    || (w.policy.state != Transferring && (w.listenerStarted <==> w.policy.state != Closed)
        && !w.transferStarted && !w.terminalFailure)
  }

  lemma {:induction false} PollKeepsTidy(w: Worker, fires: bool, p: Poll)
    requires Tidy(w) && !w.restarted
    ensures Tidy(Polled(w, fires, p))
  {
  }

  lemma {:induction false} LoopHead(r: Run, n: nat)
    requires Polls(r) && n <= |r.polls|
    ensures Tidy(After(r, n))
  {
    if n == 0 {
    } else {
      LoopHead(r, n - 1);
      PollKeepsTidy(After(r, n - 1), r.fires[n - 1], r.polls[n - 1]);
    }
  }

  /** The window at the head of the loop, unless the network is gone or its 120000 ms are over. */
  predicate StaysOpen(w: Worker, p: Poll) {
    w.policy.state == WindowOpen && p.connected && Since(Millis(p.at), w.policy.windowStartedAt) < 120000
  }

  /** Exactly what one poll does: a fired button opens a window when none stays open and password and network
      are there; the library is asked while a window is open; a start is admitted while the window's time
      runs, for an app image, with password and network; anything the library does ends the window; and the
      board restarts when an upload ends or a transfer is past its deadline. */
  lemma {:induction false} PollExactly(r: Run, n: nat)
    requires Polls(r) && n < |r.polls|
    ensures var w, after, p := After(r, n), After(r, n + 1), r.polls[n];
            var isOpen := StaysOpen(w, p) || Opens(r, n);
            var since := if Opens(r, n) then Millis(p.at) else w.policy.windowStartedAt;
            (Opens(r, n) <==> r.fires[n] && !StaysOpen(w, p) && p.configured && p.connectedAtFire)
            && (Starts(r, n) <==>
                isOpen && p.handle.Session? && p.handle.configured && p.handle.connected && p.handle.appImage
                && Since(Millis(p.handle.startAt), since) < 120000)
            && (after.restarted <==>
                isOpen && p.handle.Session?
                && (p.handle.ends || (Starts(r, n) && exists k | 0 <= k < |p.handle.progress| ::
                                        Since(Millis(p.handle.progress[k]), Millis(p.handle.startAt)) >= 180000)))
            && (!after.restarted ==> after.policy.state == if isOpen && p.handle.Idle? then WindowOpen else Closed)
            && after.policy.windowStartedAt == since
  {
    LoopHead(r, n);
  }

  /** One poll that leaves a window open opened it itself, or found it open and not yet over. */
  lemma {:induction false} OpenAfterPoll(w: Worker, fires: bool, p: Poll)
    requires Tidy(w) && !w.restarted
    requires var after := Polled(w, fires, p); !after.restarted && after.policy.state == WindowOpen
    ensures !StartsTransfer(w, fires, p)
    ensures OpensWindow(w, fires, p) ==> Polled(w, fires, p).policy.windowStartedAt == Millis(p.at)
    ensures !OpensWindow(w, fires, p) ==>
              w.policy.state == WindowOpen && Polled(w, fires, p).policy.windowStartedAt == w.policy.windowStartedAt
              && Since(Millis(p.at), w.policy.windowStartedAt) < WINDOW_MS
  {
  }

  /** A start is admitted only in a window that this poll opened or found open, and only while the window's
      own time has not run out. */
  lemma {:induction false} StartInPoll(w: Worker, fires: bool, p: Poll)
    requires Tidy(w) && !w.restarted && StartsTransfer(w, fires, p)
    ensures OpensWindow(w, fires, p) ==> Since(Millis(p.handle.startAt), Millis(p.at)) < WINDOW_MS
    ensures !OpensWindow(w, fires, p) ==>
              w.policy.state == WindowOpen && Since(Millis(p.at), w.policy.windowStartedAt) < WINDOW_MS
              && Since(Millis(p.handle.startAt), w.policy.windowStartedAt) < WINDOW_MS
  {
  }

  /** The open window at the head of the loop goes back to one opening poll, less than 120000 ms of true time
      before the latest poll, with no start and no other opening since. */
  predicate WindowFrom(r: Run, n: nat, i: nat)
    requires n <= |r.polls| == |r.fires|
  {
    i < n && Opens(r, i)
    && After(r, n).policy.windowStartedAt == Millis(r.polls[i].at)
    && r.polls[i].at <= r.polls[n - 1].at && r.polls[n - 1].at - r.polls[i].at < WINDOW_MS
    && forall k | i <= k < n :: !Starts(r, k) && (k > i ==> !Opens(r, k))
  }

  lemma {:induction false} WindowGoesOn(r: Run, n: nat, i: nat)
    requires Timed(r) && 0 < n <= |r.polls| && WindowFrom(r, n - 1, i)
    requires !Starts(r, n - 1) && !Opens(r, n - 1)
    requires After(r, n).policy.windowStartedAt == After(r, n - 1).policy.windowStartedAt
    requires Since(Millis(r.polls[n - 1].at), After(r, n).policy.windowStartedAt) < WINDOW_MS
    ensures WindowFrom(r, n, i)
  {
    SinceTrueTime(r.polls[i].at, r.polls[n - 1].at);
  }

  lemma {:induction false} WindowOrigin(r: Run, n: nat) returns (i: nat)
    requires Timed(r) && n <= |r.polls| && !After(r, n).restarted && After(r, n).policy.state == WindowOpen
    ensures WindowFrom(r, n, i)
  {
    var m := n - 1;
    LoopHead(r, m);
    OpenAfterPoll(After(r, m), r.fires[m], r.polls[m]);
    if Opens(r, m) {
      i := m;
    } else {
      i := WindowOrigin(r, m);
      WindowGoesOn(r, n, i);
    }
  }

  /** Each accepted transfer start belongs to a window that its own activation of the button opened: the
      latest opening, less than 120000 ms of true time earlier, with no other start in between. */
  lemma {:induction false} TransferWithinWindow(r: Run, j: nat) returns (i: nat)
    requires Timed(r) && j < |r.polls| && Starts(r, j)
    ensures i <= j && Opens(r, i) && r.fires[i]
    ensures r.polls[i].at <= r.polls[j].handle.startAt < r.polls[i].at + WINDOW_MS
    ensures forall k | i <= k < j :: !Starts(r, k)
    ensures forall k | i < k <= j :: !Opens(r, k)
  {
    LoopHead(r, j);
    var p := r.polls[j];
    StartInPoll(After(r, j), r.fires[j], p);
    if Opens(r, j) {
      i := j;
    } else {
      i := WindowOrigin(r, j);
      SinceTrueTime(r.polls[i].at, p.at);
    }
    SinceTrueTime(r.polls[i].at, p.handle.startAt);
  }

  /** Two accepted starts belong to two different activations of the button, the second after the first
      start: a failed or expired window is not reused, and a new hold of 3000 ms is needed. */
  lemma {:induction false} EachStartItsOwnHold(r: Run, j: nat, k: nat) returns (first: nat, second: nat)
    requires Proper(r) && j < k < |r.polls| && Starts(r, j) && Starts(r, k)
    ensures first <= j < second <= k && Opens(r, first) && Opens(r, second)
    ensures r.polls[second].at - r.polls[first].at >= 3050
  {
    first := TransferWithinWindow(r, j);
    second := TransferWithinWindow(r, k);
    OpeningsFarApart(r, first, second);
  }

  lemma {:induction false} OpeningsFarApart(r: Run, first: nat, second: nat)
    requires Proper(r) && first < second < |r.polls| && r.fires[first] && r.fires[second]
    ensures r.polls[second].at - r.polls[first].at >= 3050
  {
    var readings := Readings(r);
    assert readings[first + 1].time == r.polls[first].at && readings[second + 1].time == r.polls[second].at;
    FiresFarApart(readings, first + 1, second + 1);
  }

  /** A transfer is cut by its deadline exactly when some progress callback comes 180000 ms or more after its
      start, counted modulo the counter's wrap, and so in true time while the callbacks come within one wrap;
      the board then restarts with the transfer unfinished, before the new image is activated. */
  lemma {:induction false} FinishedInTime(r: Run, j: nat)
    requires Polls(r) && j < |r.polls| && Starts(r, j)
    ensures var h := r.polls[j].handle;
            After(r, j + 1).policy.state == Transferring
            <==> exists k | 0 <= k < |h.progress| :: (h.progress[k] - h.startAt) % WRAP >= TRANSFER_TIMEOUT_MS
    ensures var h := r.polls[j].handle;
            (forall k | 0 <= k < |h.progress| :: h.startAt <= h.progress[k] < h.startAt + WRAP) ==>
              (After(r, j + 1).policy.state == Transferring
               <==> exists k | 0 <= k < |h.progress| :: h.progress[k] - h.startAt >= TRANSFER_TIMEOUT_MS)
    ensures After(r, j + 1).policy.state == Transferring ==> After(r, j + 1).restarted
  {
    var h := r.polls[j].handle;
    var policy := AfterStart(Pressed(After(r, j), r.fires[j], r.polls[j]), h).policy;
    forall k | 0 <= k < |h.progress|
      ensures TransferOver(policy, Millis(h.progress[k]))
              <==> (h.progress[k] - h.startAt) % WRAP >= TRANSFER_TIMEOUT_MS
    {
      SinceModulo(h.startAt, h.progress[k]);
    }
  }
}

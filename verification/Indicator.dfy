/** The status light: a worker that shows feedback pulses over the colour of the upload window or of
    listening. */
module Indicator {
  import opened Common
  import opened Clock

  const PULSE_MS := 500

  type Channel = c: int | 0 <= c < 256

  datatype Color = Color(red: Channel, green: Channel, blue: Channel)

  const OFF := Color(0, 0, 0)

  datatype Ota = Closed | WindowOpen | Transferring

  datatype MediaResult = Queued | Accepted | Executed | Rejected | Unknown

  datatype Event =
    | Listening(active: bool)
    | WakeResult(source: string, sent: bool)
    | MediaFeedback(result: MediaResult)
    | VoiceSyncResult(success: bool)
    | OtaState(state: Ota)
    | OtaResult(success: bool)

  function OtaColor(state: Ota, brightness: Channel): Color {
    match state
    case Closed => OFF
    case WindowOpen => Color(brightness / 2, brightness / 4, 0)
    case Transferring => Color(0, brightness / 4, brightness / 2)
  }

  function PulseColor(e: Event, brightness: Channel): Color
    requires !e.Listening? && !e.OtaState?
  {
    var half := brightness / 2;
    match e
    case WakeResult(source, sent) =>
      if !sent then Color(brightness, 0, 0)
      else if source == "mqtt" then Color(0, brightness, brightness)
      else if source == "telegram" then Color(brightness, 0, brightness)
      else Color(0, brightness, 0)
    case MediaFeedback(result) =>
      if result == Queued || result == Accepted then Color(half, half, 0)
      else if result == Executed then Color(brightness / 3, brightness / 3, brightness / 3)
      else Color(brightness, 0, 0)
    case VoiceSyncResult(success) => if success then Color(0, half, half) else Color(half, 0, 0)
    case OtaResult(success) => if success then Color(0, half, 0) else Color(half, 0, 0)
  }

  /** The colour without a pulse. */
  function BaseColor(listening: bool, ota: Ota, brightness: Channel): Color {
    if ota != Closed then OtaColor(ota, brightness) else if listening then Color(0, 0, brightness) else OFF
  }

  datatype Worker = Worker(
    listening: bool, ota: Ota, pulseActive: bool, pulseStartedAt: Tick, pulseColor: Color, shown: Color)

  const STARTED := Worker(false, Closed, false, 0, OFF, OFF)

  /** The pulse test at the top of the loop. */
  function Topped(w: Worker, now: Tick, brightness: Channel): Worker {
    if w.pulseActive && Since(now, w.pulseStartedAt) >= PULSE_MS
    then w.(pulseActive := false, shown := BaseColor(w.listening, w.ota, brightness))
    else w
  }

  function Handled(w: Worker, e: Event, now: Tick, brightness: Channel): Worker {
    match e
    case Listening(active) =>
      if !w.pulseActive && w.ota == Closed
      then w.(listening := active, shown := BaseColor(active, Closed, brightness))
      else w.(listening := active)
    case OtaState(state) =>
      w.(ota := state, pulseActive := false, shown := BaseColor(w.listening, state, brightness))
    case OtaResult(_) => Pulsing(w.(ota := Closed), PulseColor(e, brightness), now)
    case _ => if w.ota == Closed then Pulsing(w, PulseColor(e, brightness), now) else w
  }

  function Pulsing(w: Worker, color: Color, now: Tick): Worker {
    w.(pulseColor := color, pulseStartedAt := now, pulseActive := true, shown := color)
  }

  class IndicatorWorker {
    const brightness: Channel
    var listening: bool
    var ota: Ota
    var pulseActive: bool
    var pulseStartedAt: Tick
    var pulseColor: Color
    var shown: Color

    function View(): Worker
      reads this
    {
      Worker(listening, ota, pulseActive, pulseStartedAt, pulseColor, shown)
    }

    constructor (brightness: Channel)
      ensures View() == STARTED && this.brightness == brightness
    {
      this.brightness := brightness;
      listening, ota, pulseActive, pulseStartedAt := false, Closed, false, 0;
      pulseColor, shown := OFF, OFF;
    }

    method ShowBase()
      modifies this`shown
      ensures shown == BaseColor(listening, ota, brightness)
    {
      if ota == Closed {
        shown := if listening then Color(0, 0, brightness) else OFF;
      } else {
        shown := OtaColor(ota, brightness);
      }
    }

    /** The top of the loop: how long to wait for an event, `None` without a limit.  The wait is bounded
        whenever a pulse is shown, and no longer than what is left of it. */
    method LoopTop(now: Tick) returns (wait: Option<nat>)
      modifies this
      ensures View() == Topped(old(View()), now, brightness)
      ensures wait.None? <==> !pulseActive
      ensures wait.Some? ==> 0 < wait.value && Since(now, pulseStartedAt) + wait.value == PULSE_MS
    {
      wait := None;
      if pulseActive {
        var elapsed := Since(now, pulseStartedAt);
        if elapsed >= PULSE_MS {
          pulseActive := false;
          ShowBase();
        } else {
          var left := PULSE_MS - elapsed;
          wait := Some(if left == 0 then 1 else left);
        }
      }
    }

    method Handle(e: Event, now: Tick)
      modifies this
      ensures View() == Handled(old(View()), e, now, brightness)
    {
      if e.Listening? {
        listening := e.active;
        if !pulseActive && ota == Closed {
          ShowBase();
        }
      } else if e.OtaState? {
        ota := e.state;
        pulseActive := false;
        ShowBase();
      } else if e.OtaResult? {
        ota := Closed;
        StartPulse(e, now);
      } else if ota == Closed {
        StartPulse(e, now);
      }
    }

    method StartPulse(e: Event, now: Tick)
      requires !e.Listening? && !e.OtaState?
      modifies this
      ensures View() == Pulsing(old(View()), PulseColor(e, brightness), now)
    {
      pulseColor := PulseColor(e, brightness);
      pulseStartedAt := now;
      pulseActive := true;
      shown := pulseColor;
    }
  }

  // What the colours tell.

  predicate ReportsFailure(e: Event) {
    match e
    case WakeResult(_, sent) => !sent
    case MediaFeedback(result) => result == Rejected || result == Unknown
    case VoiceSyncResult(success) => !success
    case OtaResult(success) => !success
    case _ => false
  }

  /** A channel of a colour is dark or shines with the given strength. */
  predicate Shines(channel: Channel, strength: Channel) {
    channel == 0 || channel == strength
  }

  /** A pulse shows red alone exactly when it reports a failure; a sent wake packet shows its source.  Wake packets
      and failed media keys shine in full, an executed media key in a third, all else in half. */
  lemma {:induction false} FailuresAreRed(e: Event, brightness: Channel)
    requires !e.Listening? && !e.OtaState? && brightness >= 3
    ensures var color := PulseColor(e, brightness);
            (ReportsFailure(e) <==> color.red > 0 && color.green == 0 && color.blue == 0)
            && (var strength := if e.WakeResult? || (e.MediaFeedback? && ReportsFailure(e)) then brightness
                                else if e == MediaFeedback(Executed) then brightness / 3 else brightness / 2;
                Shines(color.red, strength) && Shines(color.green, strength) && Shines(color.blue, strength))
            && (e.WakeResult? && e.sent ==>
                  (e.source == "mqtt" <==> color.red == 0 && color.blue > 0)
                  && (e.source == "telegram" <==> color.red > 0 && color.blue > 0))
  {
  }

  /** Without a pulse, the light tells the upload window, a transfer, listening and rest apart; it is dark
      exactly at rest, and listening does not show while the window is not closed. */
  lemma {:induction false} BaseTellsApart(listening: bool, ota: Ota, listening': bool, ota': Ota, brightness: Channel)
    requires brightness >= 4
    ensures BaseColor(listening, ota, brightness) == BaseColor(listening', ota', brightness)
            <==> ota == ota' && (ota == Closed ==> listening == listening')
    ensures BaseColor(listening, ota, brightness) == OFF <==> ota == Closed && !listening
    ensures var color := BaseColor(listening, ota, brightness);
            if ota == Closed then color.red == color.green == 0 && Shines(color.blue, brightness)
            else color.green == brightness / 4 && color.red + color.blue == brightness / 2
                 && (ota == WindowOpen <==> color.blue == 0)
  {
  }

  // Runs: each turn of the loop reads the clock at its top, then times out or receives an event.

  datatype Turn = Turn(at: nat, event: Option<Event>, eventAt: nat)

  function After(run: seq<Turn>, n: nat, brightness: Channel): Worker
    requires n <= |run|
  {
    if n == 0 then STARTED
    else
      var top := Topped(After(run, n - 1, brightness), Millis(run[n - 1].at), brightness);
      match run[n - 1].event
      case None => top
      case Some(e) => Handled(top, e, Millis(run[n - 1].eventAt), brightness)
  }

  /** True time never goes back, and the turns are less than a wrap minus one pulse apart. */
  predicate Timed(run: seq<Turn>) {
    (forall i | 0 <= i < |run| :: run[i].at <= run[i].eventAt)
    && (forall i, j | 0 <= i < j < |run| :: run[i].eventAt <= run[j].at)
    && (forall i | 0 < i < |run| :: run[i].at - run[i - 1].at < WRAP - PULSE_MS)
  }

  // The reference: what the received events alone call for.

  function LastListening(run: seq<Turn>, n: nat): bool
    requires n <= |run|
  {
    if n == 0 then false
    else match run[n - 1].event
      case Some(Listening(active)) => active
      case _ => LastListening(run, n - 1)
  }

  function LastOta(run: seq<Turn>, n: nat): Ota
    requires n <= |run|
  {
    if n == 0 then Closed
    else match run[n - 1].event
      case Some(OtaState(state)) => state
      case Some(OtaResult(_)) => Closed
      case _ => LastOta(run, n - 1)
  }

  /** The event whose pulse is the latest to be called for and not withdrawn by a change of the window. */
  function LastPulse(run: seq<Turn>, n: nat): (i: Option<nat>)
    requires n <= |run|
    ensures i.Some? ==>
              i.value < n && run[i.value].event.Some?
              && !run[i.value].event.value.Listening? && !run[i.value].event.value.OtaState?
  {
    if n == 0 then None
    else match run[n - 1].event
      case None => LastPulse(run, n - 1)
      case Some(Listening(_)) => LastPulse(run, n - 1)
      case Some(OtaState(_)) => None
      case Some(OtaResult(_)) => Some(n - 1)
      case Some(_) => if LastOta(run, n - 1) == Closed then Some(n - 1) else LastPulse(run, n - 1)
  }

  /** The latest pulse was less than 500 ms old when the loop last looked. */
  predicate PulseShows(run: seq<Turn>, n: nat)
    requires n <= |run|
  {
    match LastPulse(run, n)
    case None => false
    case Some(i) => i == n - 1 || run[n - 1].at < run[i].eventAt + PULSE_MS
  }

  predicate Follows(run: seq<Turn>, n: nat, brightness: Channel)
    requires n <= |run|
  {
    var w := After(run, n, brightness);
    w.listening == LastListening(run, n) && w.ota == LastOta(run, n)
    && (w.pulseActive <==> PulseShows(run, n))
    && (w.pulseActive ==>
          w.ota == Closed && w.shown == w.pulseColor == PulseColor(run[LastPulse(run, n).value].event.value, brightness)
          && w.pulseStartedAt == Millis(run[LastPulse(run, n).value].eventAt))
    && (!w.pulseActive ==> w.shown == BaseColor(w.listening, w.ota, brightness))
  }

  /** The test at the top of a turn is right about the latest pulse's age in true time. */
  lemma {:induction false} PulseTest(run: seq<Turn>, n: nat, brightness: Channel)
    requires Timed(run) && n < |run| && Follows(run, n, brightness)
    ensures Topped(After(run, n, brightness), Millis(run[n].at), brightness).pulseActive
            <==> LastPulse(run, n).Some? && run[n].at < run[LastPulse(run, n).value].eventAt + PULSE_MS
  {
    if LastPulse(run, n).Some? {
      SinceTrueTime(run[LastPulse(run, n).value].eventAt, run[n].at);
      assert run[n - 1].at <= run[n - 1].eventAt <= run[n].at;
    }
  }

  lemma {:induction false} QuietTurn(run: seq<Turn>, n: nat, brightness: Channel)
    requires Timed(run) && n < |run| && Follows(run, n, brightness)
    requires run[n].event.None? || run[n].event.value.Listening?
    ensures Follows(run, n + 1, brightness)
  {
    PulseTest(run, n, brightness);
    assert LastPulse(run, n + 1) == LastPulse(run, n);
  }

  lemma {:induction false} WindowTurn(run: seq<Turn>, n: nat, brightness: Channel)
    requires Timed(run) && n < |run| && Follows(run, n, brightness)
    requires run[n].event.Some? && (run[n].event.value.OtaState? || run[n].event.value.OtaResult?)
    ensures Follows(run, n + 1, brightness)
  {
  }

  lemma {:induction false} FeedbackTurn(run: seq<Turn>, n: nat, brightness: Channel)
    requires Timed(run) && n < |run| && Follows(run, n, brightness)
    requires run[n].event.Some?
    requires var e := run[n].event.value; e.WakeResult? || e.MediaFeedback? || e.VoiceSyncResult?
    ensures Follows(run, n + 1, brightness)
  {
    PulseTest(run, n, brightness);
    if LastOta(run, n) != Closed {
      assert LastPulse(run, n + 1) == LastPulse(run, n);
    }
  }

  lemma {:induction false} TurnFollows(run: seq<Turn>, n: nat, brightness: Channel)
    requires Timed(run) && 0 < n <= |run| && Follows(run, n - 1, brightness)
    ensures Follows(run, n, brightness)
  {
    var event := run[n - 1].event;
    if event.None? || event.value.Listening? {
      QuietTurn(run, n - 1, brightness);
    } else if event.value.OtaState? || event.value.OtaResult? {
      WindowTurn(run, n - 1, brightness);
    } else {
      FeedbackTurn(run, n - 1, brightness);
    }
  }

  lemma {:induction false} NothingShownFirst(run: seq<Turn>, brightness: Channel)
    ensures Follows(run, 0, brightness)
  {
  }

  /** After every turn the light shows exactly what the events so far call for: the latest pulse while it was
      less than 500 ms old at the top of the turn, and otherwise the colour of the upload window or of
      listening.  No pulse is shown while the window is not closed. */
  lemma {:induction false} ShowsWhatEventsCallFor(run: seq<Turn>, n: nat, brightness: Channel)
    requires Timed(run) && n <= |run|
    ensures Follows(run, n, brightness)
  {
    if n == 0 {
      NothingShownFirst(run, brightness);
    } else {
      ShowsWhatEventsCallFor(run, n - 1, brightness);
      TurnFollows(run, n, brightness);
    }
  }

  /** A turn that keeps the pulse asks to be woken exactly 500 ms of true time after the pulse began; woken
      then or later, with no event in between, the next turn ends it. */
  lemma {:induction false} WaitEndsPulse(run: seq<Turn>, n: nat, brightness: Channel)
    requires Timed(run) && n < |run|
    requires Topped(After(run, n, brightness), Millis(run[n].at), brightness).pulseActive
    ensures LastPulse(run, n).Some?
    ensures var began := run[LastPulse(run, n).value].eventAt;
            var wait := PULSE_MS - Since(Millis(run[n].at), After(run, n, brightness).pulseStartedAt);
            run[n].at + wait == began + PULSE_MS
            && (n + 1 < |run| && run[n].event.None? && run[n + 1].at >= run[n].at + wait ==>
                  !Topped(After(run, n + 1, brightness), Millis(run[n + 1].at), brightness).pulseActive)
  {
    ShowsWhatEventsCallFor(run, n, brightness);
    PulseTest(run, n, brightness);
    SinceTrueTime(run[LastPulse(run, n).value].eventAt, run[n].at);
    if n + 1 < |run| {
      ShowsWhatEventsCallFor(run, n + 1, brightness);
      PulseTest(run, n + 1, brightness);
    }
  }
}

/** The BOOT-button gate: debounce, arming after release, and one activation per three-second hold, over the
    wrapping counter and arbitrary sampling times. */
module OtaButton {
  import opened Common
  import opened Clock

  const DEBOUNCE_MS := 50
  const HOLD_MS := 3000

  datatype Gate = Gate(
    armed: bool, candidatePressed: bool, stablePressed: bool, holdConsumed: bool,
    candidateSince: Tick, pressedSince: Tick)

  function Begun(pressed: bool, now: Tick): Gate {
    Gate(!pressed, pressed, pressed, pressed, now, now)
  }

  function Candidated(g: Gate, pressed: bool, now: Tick): Gate {
    if pressed != g.candidatePressed then g.(candidatePressed := pressed, candidateSince := now) else g
  }

  function Settled(g: Gate, now: Tick): Gate {
    if g.candidatePressed == g.stablePressed || Since(now, g.candidateSince) < DEBOUNCE_MS then g
    else if !g.armed then
      if g.candidatePressed then g.(stablePressed := true)
      else g.(stablePressed := false, armed := true, holdConsumed := false)
    else if g.candidatePressed then g.(stablePressed := true, pressedSince := now, holdConsumed := false)
    else g.(stablePressed := false, holdConsumed := false)
  }

  predicate Due(g: Gate, now: Tick) {
    g.armed && g.stablePressed && !g.holdConsumed && Since(now, g.pressedSince) >= HOLD_MS
  }

  function Sampled(g: Gate, pressed: bool, now: Tick): (Gate, bool) {
    var settled := Settled(Candidated(g, pressed, now), now);
    if Due(settled, now) then (settled.(holdConsumed := true), true) else (settled, false)
  }

  class OtaButtonGate {
    var armed: bool
    var candidatePressed: bool
    var stablePressed: bool
    var holdConsumed: bool
    var candidateSince: Tick
    var pressedSince: Tick

    function View(): Gate
      reads this
    {
      Gate(armed, candidatePressed, stablePressed, holdConsumed, candidateSince, pressedSince)
    }

    constructor ()
      ensures View() == Gate(false, false, false, false, 0, 0)
    {
      armed, candidatePressed, stablePressed, holdConsumed := false, false, false, false;
      candidateSince, pressedSince := 0, 0;
    }

    method Begin(pressed: bool, now: Tick)
      modifies this
      ensures View() == Begun(pressed, now)
    {
      armed := !pressed;
      candidatePressed := pressed;
      stablePressed := pressed;
      holdConsumed := pressed;
      candidateSince := now;
      pressedSince := now;
    }

    method Sample(pressed: bool, now: Tick) returns (fired: bool)
      modifies this
      ensures (View(), fired) == Sampled(old(View()), pressed, now)
    {
      if pressed != candidatePressed {
        candidatePressed := pressed;
        candidateSince := now;
      }
      if candidatePressed != stablePressed && Since(now, candidateSince) >= DEBOUNCE_MS {
        stablePressed := candidatePressed;
        if !armed {
          if !stablePressed {
            armed := true;
            holdConsumed := false;
          }
        } else if stablePressed {
          pressedSince := now;
          holdConsumed := false;
        } else {
          holdConsumed := false;
        }
      }
      if !armed || !stablePressed || holdConsumed || Since(now, pressedSince) < HOLD_MS {
        return false;
      }
      holdConsumed := true;
      return true;
    }
  }

  // Runs: a first reading at `begin`, then any samples at true times that never decrease.

  datatype Reading = Reading(pressed: bool, time: nat)

  predicate InOrder(run: seq<Reading>) {
    forall i, j | 0 <= i <= j < |run| :: run[i].time <= run[j].time
  }

  function Step(run: seq<Reading>, n: nat): (Gate, bool)
    requires n < |run|
  {
    var now := Millis(run[n].time);
    if n == 0 then (Begun(run[0].pressed, now), false) else Sampled(Step(run, n - 1).0, run[n].pressed, now)
  }

  predicate Fires(run: seq<Reading>, n: nat)
    requires n < |run|
  {
    Step(run, n).1
  }

  // The reference: what a debounced signal is, from the readings alone.

  /** Where the current stretch of equal readings began. */
  function StretchStart(run: seq<Reading>, n: nat): (start: nat)
    requires n < |run|
    ensures start <= n
    ensures forall k | start <= k <= n :: run[k].pressed == run[n].pressed
    ensures start > 0 ==> run[start - 1].pressed != run[n].pressed
  {
    if n == 0 || run[n - 1].pressed != run[n].pressed then n else StretchStart(run, n - 1)
  }

  /** The debounced signal: the first reading, then the value of any stretch of at least 50 ms. */
  function Debounced(run: seq<Reading>, n: nat): bool
    requires n < |run|
  {
    if n == 0 then run[0].pressed
    else if Since(Millis(run[n].time), Millis(run[StretchStart(run, n)].time)) >= DEBOUNCE_MS then run[n].pressed
    else Debounced(run, n - 1)
  }

  predicate IsPress(run: seq<Reading>, n: nat)
    requires n < |run|
  {
    n > 0 && Debounced(run, n) && !Debounced(run, n - 1)
  }

  /** The latest debounced press, if there was one. */
  function LastPress(run: seq<Reading>, n: nat): (at: Option<nat>)
    requires n < |run|
    ensures at.Some? ==> 0 < at.value <= n && IsPress(run, at.value)
  {
    if IsPress(run, n) then Some(n) else if n == 0 then None else LastPress(run, n - 1)
  }

  predicate Released(run: seq<Reading>, n: nat)
    requires n < |run|
  {
    exists k | 0 <= k <= n :: !Debounced(run, k)
  }

  predicate FiredSince(run: seq<Reading>, from: nat, n: nat)
    requires n <= |run|
  {
    exists k | from <= k < n :: Fires(run, k)
  }

  /** The gate's fields, in terms of the reference. */
  predicate Tracks(run: seq<Reading>, n: nat)
    requires n < |run|
  {
    var g, press := Step(run, n).0, LastPress(run, n);
    g.candidatePressed == run[n].pressed
    && g.candidateSince == Millis(run[StretchStart(run, n)].time)
    && g.stablePressed == Debounced(run, n)
    && (g.armed <==> Released(run, n))
    && (g.armed && g.stablePressed ==>
          press.Some? && g.pressedSince == Millis(run[press.value].time)
          && (g.holdConsumed <==> FiredSince(run, press.value, n + 1)))
    && (g.armed && !g.stablePressed ==> !g.holdConsumed)
    && (!g.armed ==> g.stablePressed)
  }

  lemma {:induction false} ReleasedStep(run: seq<Reading>, n: nat)
    requires 0 < n < |run|
    ensures Released(run, n) <==> Released(run, n - 1) || !Debounced(run, n)
  {
    if Released(run, n) && Debounced(run, n) {
      var k :| 0 <= k <= n && !Debounced(run, k);
      assert k <= n - 1;
    }
  }

  lemma {:induction false} FiredStep(run: seq<Reading>, from: nat, n: nat)
    requires from <= n < |run|
    ensures FiredSince(run, from, n + 1) <==> FiredSince(run, from, n) || Fires(run, n)
  {
    if FiredSince(run, from, n + 1) && !Fires(run, n) {
      var k :| from <= k < n + 1 && Fires(run, k);
      assert k < n;
    }
  }

  /** The gate just before the hold test of sample `n`. */
  function SettledAt(run: seq<Reading>, n: nat): Gate
    requires 0 < n < |run|
  {
    var now := Millis(run[n].time);
    Settled(Candidated(Step(run, n - 1).0, run[n].pressed, now), now)
  }

  lemma {:induction false} SettledTracks(run: seq<Reading>, n: nat)
    requires 0 < n < |run| && Tracks(run, n - 1)
    ensures var g, press := SettledAt(run, n), LastPress(run, n);
            g.candidatePressed == run[n].pressed
            && g.candidateSince == Millis(run[StretchStart(run, n)].time)
            && g.stablePressed == Debounced(run, n)
            && (g.armed <==> Released(run, n))
            && (g.armed && g.stablePressed ==>
                  press.Some? && g.pressedSince == Millis(run[press.value].time)
                  && (g.holdConsumed <==> FiredSince(run, press.value, n)))
            && (g.armed && !g.stablePressed ==> !g.holdConsumed)
            && (!g.armed ==> g.stablePressed)
  {
    ReleasedStep(run, n);
    var candidated := Candidated(Step(run, n - 1).0, run[n].pressed, Millis(run[n].time));
    assert candidated.candidateSince == Millis(run[StretchStart(run, n)].time);
    if IsPress(run, n) {
      assert !FiredSince(run, n, n);
    }
  }

  lemma {:induction false} GateTracks(run: seq<Reading>, n: nat)
    requires n < |run|
    ensures Tracks(run, n)
  {
    if n > 0 {
      GateTracks(run, n - 1);
      SettledTracks(run, n);
      assert Step(run, n).0 == SettledAt(run, n).(holdConsumed := SettledAt(run, n).holdConsumed || Fires(run, n));
      if LastPress(run, n).Some? {
        FiredStep(run, LastPress(run, n).value, n);
      }
    } else {
      assert Released(run, 0) <==> !Debounced(run, 0);
    }
  }

  /** Exactly when the gate fires: the debounced signal is pressed, its last press lies at least 3000 counter
      milliseconds back, and nothing has fired since that press.  A press the button was held through at
      the start is no press: it has no rising edge. */
  lemma {:induction false} FiresExactly(run: seq<Reading>, n: nat)
    requires n < |run|
    ensures Fires(run, n) <==>
            Debounced(run, n) && LastPress(run, n).Some?
            && Since(Millis(run[n].time), Millis(run[LastPress(run, n).value].time)) >= HOLD_MS
            && !FiredSince(run, LastPress(run, n).value, n)
  {
    if n > 0 {
      GateTracks(run, n - 1);
      SettledTracks(run, n);
      PressMeansReleased(run, n);
    }
  }

  lemma {:induction false} PressMeansReleased(run: seq<Reading>, n: nat)
    requires n < |run|
    ensures LastPress(run, n).Some? ==> Released(run, n)
  {
    if LastPress(run, n).Some? {
      assert !Debounced(run, LastPress(run, n).value - 1);
    }
  }

  lemma {:induction false} HeldSincePress(run: seq<Reading>, n: nat, k: nat)
    requires n < |run| && Debounced(run, n) && LastPress(run, n).Some? && LastPress(run, n).value <= k <= n
    ensures Debounced(run, k)
  {
    if k == n {
    } else {
      HeldSincePress(run, n - 1, k);
    }
  }

  /** The press at a debounced rising edge: an unbroken stretch of pressed readings of at least 50 ms of true
      time, with a debounced release before it. */
  lemma {:induction false} PressIsDebounced(run: seq<Reading>, p: nat)
    requires InOrder(run) && p < |run| && IsPress(run, p)
    ensures var start := StretchStart(run, p);
            0 < start && run[p].time - run[start].time >= DEBOUNCE_MS
            && (forall k | start <= k <= p :: run[k].pressed)
  {
    var start := StretchStart(run, p);
    SinceTrueTime(run[start].time, run[p].time);
    if start == 0 {
      AllPressed(run, p - 1);
    }
  }

  lemma {:induction false} AllPressed(run: seq<Reading>, n: nat)
    requires n < |run| && forall k | 0 <= k <= n :: run[k].pressed
    ensures Debounced(run, n)
  {
    if n == 0 {
    } else {
      AllPressed(run, n - 1);
    }
  }

  /** In true time: each activation follows a debounced press (unbroken for 50 ms, after a release) whose
      debounced state was held for at least 3000 ms up to the activation. */
  lemma {:induction false} FireFollowsHold(run: seq<Reading>, n: nat) returns (start: nat, press: nat)
    requires InOrder(run) && n < |run| && Fires(run, n)
    ensures 0 < start <= press <= n
    ensures forall k | start <= k <= press :: run[k].pressed
    ensures run[press].time - run[start].time >= DEBOUNCE_MS
    ensures forall k | press <= k <= n :: Debounced(run, k)
    ensures run[n].time - run[press].time >= HOLD_MS
    ensures exists k | 0 <= k < start :: !Debounced(run, k)
  {
    FiresExactly(run, n);
    press := LastPress(run, n).value;
    start := StretchStart(run, press);
    PressIsDebounced(run, press);
    SinceTrueTime(run[press].time, run[n].time);
    forall k | press <= k <= n
      ensures Debounced(run, k)
    {
      HeldSincePress(run, n, k);
    }
    ReleasedBeforeStretch(run, press, start - 1);
  }

  /** During a pressed stretch the debounced signal can only rise, so it was released from just before the
      stretch of a press up to the press. */
  lemma {:induction false} ReleasedBeforeStretch(run: seq<Reading>, p: nat, k: nat)
    requires p < |run| && IsPress(run, p) && 0 < StretchStart(run, p) && StretchStart(run, p) - 1 <= k < p
    ensures !Debounced(run, k)
    decreases p - k
  {
    if k == p - 1 {
    } else {
      ReleasedBeforeStretch(run, p, k + 1);
      assert run[k + 1].pressed == run[p].pressed;
    }
  }

  /** Any two activations, and the start and the first activation, are at least 3050 ms of true time apart,
      and a new hold separates two activations. */
  lemma {:induction false} FiresFarApart(run: seq<Reading>, m: nat, n: nat)
    requires InOrder(run) && m < n < |run| && Fires(run, n) && (m == 0 || Fires(run, m))
    ensures run[n].time - run[m].time >= DEBOUNCE_MS + HOLD_MS
    ensures m > 0 ==> exists k | m < k < n :: !Debounced(run, k)
  {
    var start, press := FireFollowsHold(run, n);
    if m > 0 {
      FiresExactly(run, m);
      FiresExactly(run, n);
      var p := LastPress(run, n).value;
      assert m < p;
      ReleaseBetween(run, m, p);
    }
  }

  /** Between a moment of a debounced hold and a later press there is a debounced release. */
  lemma {:induction false} ReleaseBetween(run: seq<Reading>, m: nat, p: nat)
    requires InOrder(run) && m < p < |run| && Debounced(run, m) && IsPress(run, p)
    ensures m < StretchStart(run, p) - 1 && !Debounced(run, StretchStart(run, p) - 1)
  {
    PressIsDebounced(run, p);
    var start := StretchStart(run, p);
    ReleasedBeforeStretch(run, p, start - 1);
    if start - 1 < m {
      ReleasedBeforeStretch(run, p, m);
    }
  }
}

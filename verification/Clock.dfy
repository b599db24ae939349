/** The 32-bit millisecond counter of the board.  True time is unbounded; `Millis` is what the firmware
    reads, and `Since` is the unsigned subtraction it uses for every elapsed-time test. */
module Clock {
  const WRAP := 0x1_0000_0000

  type Tick = t: nat | t < WRAP

  function Millis(time: nat): Tick {
    time % WRAP
  }

  function Since(now: Tick, start: Tick): Tick {
    (now - start) % WRAP
  }

  /** For any two times, in either order, the counter difference is the true difference modulo the wrap. */
  lemma {:induction false} SinceModulo(start: nat, now: nat)
    ensures Since(Millis(now), Millis(start)) == (now - start) % WRAP
  {
    if start <= now {
      SinceTrueTime(start, now);
    } else {
      SinceTrueTime(now, start);
      var back := (start - now) % WRAP;
      var wraps := (start - now) / WRAP;
      assert now - start == -wraps * WRAP - back;
      var difference := Millis(now) - Millis(start);
      assert (-difference) % WRAP == back;
    }
  }

  /** The counter difference is the true difference modulo the wrap, hence never more than it, and it is
      exact while less than one full wrap has passed. */
  lemma {:induction false} SinceTrueTime(start: nat, now: nat)
    requires start <= now
    ensures Since(Millis(now), Millis(start)) == (now - start) % WRAP
    ensures Since(Millis(now), Millis(start)) <= now - start
    ensures now - start < WRAP ==> Since(Millis(now), Millis(start)) == now - start
  {
    var difference := Millis(now) - Millis(start);
    var wraps := now / WRAP - start / WRAP;
    assert now - start == wraps * WRAP + difference;
    if difference >= 0 {
      assert (now - start) % WRAP == difference;
    } else {
      assert (now - start) % WRAP == difference + WRAP;
    }
  }

  /** Adding to a reading, with wrap-around, is reading the later time. */
  lemma {:induction false} MillisAdd(time: nat, delay: nat)
    ensures Millis(time + delay) == (Millis(time) + delay) % WRAP
  {
    var wraps := time / WRAP;
    assert time + delay == wraps * WRAP + (Millis(time) + delay);
  }
}

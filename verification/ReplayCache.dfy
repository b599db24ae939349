/** The bounded memory of request ids that keeps a request from being executed twice. */
module ReplayCache {
  import opened Domain

  datatype Reservation = Reservation(id: string, expiresAt: U64)

  datatype Outcome = Reserved | Duplicate | Busy

  /** The entries a call at `now` keeps, in order. */
  function Live(entries: seq<Reservation>, now: U64): (live: seq<Reservation>)
    ensures |live| <= |entries|
  {
    if entries == [] then []
    else if entries[0].expiresAt > now then [entries[0]] + Live(entries[1..], now)
    else Live(entries[1..], now)
  }

  lemma {:induction false} LiveMembers(entries: seq<Reservation>, now: U64)
    ensures forall e :: e in Live(entries, now) <==> e in entries && e.expiresAt > now
  {
    if entries == [] {
    } else {
      LiveMembers(entries[1..], now);
      assert forall e :: e in entries <==> e == entries[0] || e in entries[1..];
    }
  }

  predicate HoldsId(entries: seq<Reservation>, id: string) {
    exists e :: e in entries && e.id == id
  }

  function Decide(live: seq<Reservation>, id: string): Outcome {
    if HoldsId(live, id) then Duplicate
    else if |live| >= MAX_REMEMBERED_IDS then Busy
    else Reserved
  }

  function Reserving(entries: seq<Reservation>, id: string, expiresAt: U64, now: U64): (seq<Reservation>, Outcome) {
    var live := Live(entries, now);
    var outcome := Decide(live, id);
    (if outcome == Reserved then live + [Reservation(id, expiresAt)] else live, outcome)
  }

  class DuplicateCache {
    var entries: seq<Reservation>

    constructor ()
      ensures entries == []
    {
      entries := [];
    }

    method Reserve(id: string, expiresAt: U64, now: U64) returns (outcome: Outcome)
      modifies this
      ensures (entries, outcome) == Reserving(old(entries), id, expiresAt, now)
    {
      Retain(now);
      for n := 0 to |entries|
        invariant entries == Live(old(entries), now)
        invariant forall k | 0 <= k < n :: entries[k].id != id
      {
        if entries[n].id == id {
          assert entries[n] in entries;
          return Duplicate;
        }
      }
      if |entries| >= MAX_REMEMBERED_IDS {
        return Busy;
      }
      entries := entries + [Reservation(id, expiresAt)];
      return Reserved;
    }

    method Retain(now: U64)
      modifies this
      ensures entries == Live(old(entries), now)
    {
      var kept: seq<Reservation> := [];
      for n := 0 to |entries|
        invariant entries == old(entries)
        invariant kept == Live(entries[..n], now)
      {
        LivePrefix(entries, n, now);
        if entries[n].expiresAt > now {
          kept := kept + [entries[n]];
        }
      }
      assert entries[..|entries|] == entries;
      entries := kept;
    }
  }

  lemma {:induction false} LiveExtends(entries: seq<Reservation>, last: Reservation, now: U64)
    ensures Live(entries + [last], now) == Live(entries, now) + (if last.expiresAt > now then [last] else [])
  {
    if entries == [] {
      assert entries + [last] == [last] && [last][1..] == [];
    } else {
      var longer, rest, added := entries + [last], Live(entries[1..], now), if last.expiresAt > now then [last] else [];
      LiveExtends(entries[1..], last, now);
      assert longer[0] == entries[0] && longer[1..] == entries[1..] + [last];
      assert Live(longer[1..], now) == rest + added;
      assert [entries[0]] + (rest + added) == [entries[0]] + rest + added;
    }
  }

  lemma {:induction false} LivePrefix(entries: seq<Reservation>, n: nat, now: U64)
    requires n < |entries|
    ensures Live(entries[..n + 1], now)
            == Live(entries[..n], now) + (if entries[n].expiresAt > now then [entries[n]] else [])
  {
    LiveExtends(entries[..n], entries[n], now);
    assert entries[..n + 1] == entries[..n] + [entries[n]];
  }

  predicate DistinctIds(entries: seq<Reservation>) {
    forall i, j | 0 <= i < j < |entries| :: entries[i].id != entries[j].id
  }

  lemma {:induction false} LiveKeepsDistinct(entries: seq<Reservation>, now: U64)
    requires DistinctIds(entries)
    ensures DistinctIds(Live(entries, now))
  {
    if entries == [] {
    } else {
      LiveKeepsDistinct(entries[1..], now);
      LiveMembers(entries[1..], now);
      var rest := Live(entries[1..], now);
      assert forall k | 0 <= k < |rest| :: rest[k] in entries[1..];
    }
  }

  // Runs: any sequence of calls, with any clock readings.  `Idle` is a step that does not reach the cache.

  datatype Step = Idle | Call(id: string, expiresAt: U64, now: U64)

  function After(steps: seq<Step>): seq<Reservation> {
    if steps == [] then []
    else
      var before, step := After(steps[..|steps| - 1]), steps[|steps| - 1];
      if step.Idle? then before else Reserving(before, step.id, step.expiresAt, step.now).0
  }

  predicate Accepted(steps: seq<Step>, i: nat)
    requires i < |steps|
  {
    steps[i].Call? && Decide(Live(After(steps[..i]), steps[i].now), steps[i].id) == Reserved
  }

  predicate ExpiredBetween(steps: seq<Step>, i: nat, n: nat, expiresAt: U64)
    requires n <= |steps|
  {
    exists k | i < k < n :: steps[k].Call? && steps[k].now >= expiresAt
  }

  predicate Made(steps: seq<Step>, i: nat, r: Reservation)
    requires i < |steps|
  {
    Accepted(steps, i) && r == Reservation(steps[i].id, steps[i].expiresAt)
  }

  predicate Remembered(steps: seq<Step>, n: nat, r: Reservation)
    requires n <= |steps|
  {
    exists i: nat | i < n :: Made(steps, i, r) && !ExpiredBetween(steps, i, n, r.expiresAt)
  }

  lemma {:induction false} PrefixOf(steps: seq<Step>, n: nat)
    requires n < |steps|
    ensures steps[..n + 1][..n] == steps[..n] && steps[..n + 1][n] == steps[n]
  {
  }

  lemma {:induction false} ExpiredStep(steps: seq<Step>, i: nat, m: nat, expiresAt: U64)
    requires i < m < |steps|
    ensures ExpiredBetween(steps, i, m + 1, expiresAt)
            <==> ExpiredBetween(steps, i, m, expiresAt) || (steps[m].Call? && steps[m].now >= expiresAt)
  {
    if ExpiredBetween(steps, i, m, expiresAt) {
      var k :| i < k < m && steps[k].Call? && steps[k].now >= expiresAt;
      assert i < k < m + 1;
    }
  }

  lemma {:induction false} RememberedLater(steps: seq<Step>, m: nat, r: Reservation)
    requires m < |steps|
    ensures Made(steps, m, r) ==> Remembered(steps, m + 1, r)
    ensures Remembered(steps, m, r) && (steps[m].Call? ==> steps[m].now < r.expiresAt) ==> Remembered(steps, m + 1, r)
  {
    if Made(steps, m, r) {
      assert !ExpiredBetween(steps, m, m + 1, r.expiresAt);
    } else if Remembered(steps, m, r) && (steps[m].Call? ==> steps[m].now < r.expiresAt) {
      var i: nat :| i < m && Made(steps, i, r) && !ExpiredBetween(steps, i, m, r.expiresAt);
      ExpiredStep(steps, i, m, r.expiresAt);
    }
  }

  lemma {:induction false} RememberedBefore(steps: seq<Step>, m: nat, r: Reservation)
    requires m < |steps| && Remembered(steps, m + 1, r) && !Made(steps, m, r)
    ensures Remembered(steps, m, r) && (steps[m].Call? ==> steps[m].now < r.expiresAt)
  {
    var i: nat :| i < m + 1 && Made(steps, i, r) && !ExpiredBetween(steps, i, m + 1, r.expiresAt);
    ExpiredStep(steps, i, m, r.expiresAt);
  }

  lemma {:induction false} AfterStep(steps: seq<Step>, m: nat, r: Reservation)
    requires m < |steps|
    ensures r in After(steps[..m + 1])
            <==> Made(steps, m, r)
                 || (r in After(steps[..m]) && (steps[m].Call? ==> steps[m].now < r.expiresAt))
  {
    PrefixOf(steps, m);
    if steps[m].Call? {
      LiveMembers(After(steps[..m]), steps[m].now);
    }
  }

  /** What the cache holds after any run: exactly the reservations that succeeded and that no later call
      has seen expired. */
  lemma {:induction false} CacheContents(steps: seq<Step>, n: nat, r: Reservation)
    requires n <= |steps|
    ensures r in After(steps[..n]) <==> Remembered(steps, n, r)
  {
    if n == 0 {
      assert After(steps[..0]) == [];
    } else {
      PrefixOf(steps, n - 1);
      CacheContents(steps, n - 1, r);
      AfterStep(steps, n - 1, r);
      RememberedLater(steps, n - 1, r);
      if Remembered(steps, n, r) && !Made(steps, n - 1, r) {
        RememberedBefore(steps, n - 1, r);
      }
    }
  }

  /** No clock assumption: two successful reservations of one id are separated by a call, up to and
      including the second, whose clock had reached the expiry of the first. */
  lemma {:induction false} NoReplay(steps: seq<Step>, i: nat, j: nat)
    requires i < j < |steps|
    requires Accepted(steps, i) && Accepted(steps, j) && steps[i].id == steps[j].id
    ensures exists k | i < k <= j :: steps[k].Call? && steps[k].now >= steps[i].expiresAt
  {
    var first := Reservation(steps[i].id, steps[i].expiresAt);
    CacheContents(steps, j, first);
    LiveMembers(After(steps[..j]), steps[j].now);
    assert Made(steps, i, first);
    assert first !in Live(After(steps[..j]), steps[j].now);
    if first !in After(steps[..j]) {
      assert ExpiredBetween(steps, i, j, first.expiresAt);
    }
  }

  lemma {:induction false} ForgottenId(steps: seq<Step>, i: nat, j: nat, e: Reservation)
    requires i < j < |steps| && Accepted(steps, i) && ExpiredBetween(steps, i, j, steps[i].expiresAt)
    requires forall k | i < k < j && Accepted(steps, k) :: steps[k].id != steps[i].id
    requires Remembered(steps, j, e)
    ensures e.id != steps[i].id
  {
    var n: nat :| n < j && Made(steps, n, e) && !ExpiredBetween(steps, n, j, e.expiresAt);
    if n < i && steps[n].id == steps[i].id {
      NoReplay(steps, n, i);
    }
  }

  /** Exactly when a reserved id is still held at a later call, if no reservation of it succeeded in between:
      neither that call nor one in between has seen it expired. */
  lemma {:induction false} RememberedExactly(steps: seq<Step>, i: nat, j: nat)
    requires i < j < |steps| && Accepted(steps, i) && steps[j].Call?
    requires forall k | i < k < j && Accepted(steps, k) :: steps[k].id != steps[i].id
    ensures HoldsId(Live(After(steps[..j]), steps[j].now), steps[i].id)
            <==> steps[j].now < steps[i].expiresAt && !ExpiredBetween(steps, i, j, steps[i].expiresAt)
  {
    var first, live := Reservation(steps[i].id, steps[i].expiresAt), Live(After(steps[..j]), steps[j].now);
    CacheContents(steps, j, first);
    LiveMembers(After(steps[..j]), steps[j].now);
    assert Made(steps, i, first);
    if ExpiredBetween(steps, i, j, first.expiresAt) {
      forall e | e in live
        ensures e.id != first.id
      {
        CacheContents(steps, j, e);
        ForgottenId(steps, i, j, e);
      }
    } else {
      assert Remembered(steps, j, first);
      forall e | e in live && e.id == first.id
        ensures e == first
      {
        CacheContents(steps, j, e);
        OneReservation(steps, i, j, e);
      }
      assert steps[j].now < first.expiresAt ==> first in live;
    }
  }

  lemma {:induction false} OneReservation(steps: seq<Step>, i: nat, j: nat, e: Reservation)
    requires i < j < |steps| && Accepted(steps, i) && Remembered(steps, j, e) && e.id == steps[i].id
    requires forall k | i < k < j && Accepted(steps, k) :: steps[k].id != steps[i].id
    ensures e == Reservation(steps[i].id, steps[i].expiresAt)
  {
    var n: nat :| n < j && Made(steps, n, e) && !ExpiredBetween(steps, n, j, e.expiresAt);
    if n < i {
      NoReplay(steps, n, i);
    }
  }

  /** In every run the remembered ids are distinct and at most 128. */
  lemma {:induction false} CacheBounds(steps: seq<Step>)
    ensures |After(steps)| <= MAX_REMEMBERED_IDS && DistinctIds(After(steps))
    decreases |steps|
  {
    if steps == [] {
    } else {
      var before, step := After(steps[..|steps| - 1]), steps[|steps| - 1];
      CacheBounds(steps[..|steps| - 1]);
      if step.Call? {
        LiveKeepsDistinct(before, step.now);
        var live := Live(before, step.now);
        assert forall k | 0 <= k < |live| :: live[k] in live;
      }
    }
  }

  /** A call answers Busy only when 128 distinct ids, none of them its own, are still alive at its reading. */
  lemma {:induction false} BusyMeans(steps: seq<Step>, id: string, now: U64)
    requires Decide(Live(After(steps), now), id) == Busy
    ensures var live := Live(After(steps), now);
            |live| == MAX_REMEMBERED_IDS && DistinctIds(live) && !HoldsId(live, id)
            && forall k | 0 <= k < |live| :: live[k].expiresAt > now
  {
    CacheBounds(steps);
    LiveKeepsDistinct(After(steps), now);
    LiveMembers(After(steps), now);
    var live := Live(After(steps), now);
    assert forall k | 0 <= k < |live| :: live[k] in live;
  }
}

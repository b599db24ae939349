/** The daemon's three copies of its configuration (disk, dispatcher, shared), the lifecycle lock that the
    writers hold, and the executions under way, with and without a handler that waits for them, as a
    transition system. */
module Daemon {
  import opened Common
  import opened Domain
  import opened Config
  import opened ReplayCache
  import opened Dispatch

  datatype WriteOp =
    | SaveActions(actions: seq<CustomAction>)
    | ApplyVoiceConfig
    | Acknowledge(revision: U64)
    | ChangeSettings(listenerEnabled: bool, bindAddress: Address, port: nat, startAfterLogin: bool)

  /** What a writer wants to store, computed from the shared copy; nothing when it refuses (or, for a
      repeated acknowledgement, has nothing to store). */
  function Candidate(shared: AppConfig, op: WriteOp): Option<AppConfig> {
    match op
    case SaveActions(actions) =>
      if shared.actionsRevision + 1 >= U64_LIMIT then None
      else Checked(shared.(actions := actions, actionsRevision := shared.actionsRevision + 1))
    case ApplyVoiceConfig => Published(shared)
    case Acknowledge(revision) =>
      if shared.published.None?
         || shared.published.value.revision != revision
         || shared.published.value.actionsRevision != shared.actionsRevision
         || shared.acknowledged == Some(revision) then None
      else Checked(shared.(acknowledged := Some(revision)))
    case ChangeSettings(listenerEnabled, bindAddress, port, startAfterLogin) =>
      Checked(shared.(listenerEnabled := listenerEnabled, bindAddress := bindAddress, port := port,
                      startAfterLogin := startAfterLogin))
  }

  function Checked(c: AppConfig): Option<AppConfig> {
    if Valid(c) then Some(c) else None
  }

  /** Where the holder of the lifecycle lock is: between writers, after the file was replaced, or after the
      dispatcher's copy was replaced too.  Of the writers only an acknowledgement can be dropped while it
      waits. */
  datatype Writer = Free | Saved(candidate: AppConfig, cancellable: bool) | Replaced(candidate: AppConfig)

  /** An execution, and the configuration that admitted it. */
  datatype Job = Job(request: Request, work: Work, admittedUnder: AppConfig)

  /** What a revision stood for when it was published (history only). */
  datatype Meaning = Meaning(table: PublishedVoiceConfig, actions: seq<CustomAction>)

  /** `inFlight` are the executions whose handler waits and holds the dispatcher's lifecycle read lock,
      `detached` those whose handler was dropped, which released the lock while the work goes on.  Both are
      keyed by the number of the arrival. */
  datatype State = State(
    disk: AppConfig, dispatcher: AppConfig, shared: AppConfig, writer: Writer,
    inFlight: map<nat, Job>, detached: map<nat, Job>, arrivals: nat,
    entries: seq<Reservation>, meanings: map<nat, Meaning>)

  const INITIAL := State(DEFAULT_CONFIG, DEFAULT_CONFIG, DEFAULT_CONFIG, Free, map[], map[], 0, [], map[])

  /** `Finish` is work that ended with its handler still waiting, `Drop` a handler that is dropped while it
      waits, `Complete` the end of work without a handler. */
  datatype Event =
    | BeginWrite(op: WriteOp, fileSaved: bool)
    | ReplaceDispatcher
    | PublishShared
    | CancelWaiting
    | Arrive(request: Request, lockFree: bool, now: U64, slotFree: bool)
    | Finish(id: nat)
    | Drop(id: nat)
    | Complete(id: nat)
    | Restart(fileReadable: bool)

  /** A replacement waits until no handler holds the read lock; writers wait for the lifecycle lock. */
  predicate Enabled(s: State, e: Event) {
    match e
    case BeginWrite(_, _) => s.writer.Free?
    case ReplaceDispatcher => s.writer.Saved? && s.inFlight == map[]
    case PublishShared => s.writer.Replaced?
    case CancelWaiting => s.writer.Saved? && s.writer.cancellable
    case Arrive(_, _, _, _) => true
    case Finish(id) => id in s.inFlight
    case Drop(id) => id in s.inFlight
    case Complete(id) => id in s.detached
    case Restart(_) => true
  }

  function Apply(s: State, e: Event): State
    requires Enabled(s, e)
  {
    match e
    case BeginWrite(op, fileSaved) =>
      var candidate := Candidate(s.shared, op);
      if candidate.None? || !fileSaved then s
      else s.(disk := candidate.value,
              writer := Saved(candidate.value, op.Acknowledge?),
              meanings := if op.ApplyVoiceConfig?
                          then s.meanings[candidate.value.published.value.revision :=
                                          Meaning(candidate.value.published.value, candidate.value.actions)]
                          else s.meanings)
    case ReplaceDispatcher => s.(dispatcher := s.writer.candidate, writer := Replaced(s.writer.candidate))
    case PublishShared => s.(shared := s.writer.candidate, writer := Free)
    case CancelWaiting => s.(writer := Free)
    case Arrive(request, lockFree, now, slotFree) =>
      var a := Attempt(request, s.dispatcher, lockFree, now, slotFree);
      var admitted := Admit(s.entries, a);
      s.(entries := EntriesAfter(s.entries, a),
         arrivals := s.arrivals + 1,
         inFlight := if admitted.Ok? && slotFree
                     then s.inFlight[s.arrivals := Job(request, admitted.value, s.dispatcher)]
                     else s.inFlight)
    case Finish(id) => s.(inFlight := s.inFlight - {id})
    case Drop(id) => s.(inFlight := s.inFlight - {id}, detached := s.detached[id := s.inFlight[id]])
    case Complete(id) => s.(detached := s.detached - {id})
    case Restart(fileReadable) =>
      var loaded := if fileReadable then s.disk else DEFAULT_CONFIG;
      State(s.disk, loaded, loaded, Free, map[], map[], s.arrivals, [], s.meanings)
  }

  // Versions of a configuration.

  predicate SameVersion(a: AppConfig, b: AppConfig) {
    a.actions == b.actions && a.actionsRevision == b.actionsRevision && a.published == b.published
  }

  function Revision(c: AppConfig): nat {
    if c.published.None? then 0 else c.published.value.revision
  }

  predicate NotNewer(a: AppConfig, b: AppConfig) {
    Revision(a) <= Revision(b) && a.actionsRevision <= b.actionsRevision
  }

  /** What one writer may change. */
  predicate Successor(a: AppConfig, b: AppConfig) {
    || SameVersion(a, b)
    || (b.actionsRevision == a.actionsRevision + 1 && b.published == a.published)
    || (b.actions == a.actions && b.actionsRevision == a.actionsRevision
        && NextRevision(a.published) < U64_LIMIT && b.published == Some(Publication(a)))
  }

  lemma {:induction false} CandidateIsSuccessor(shared: AppConfig, op: WriteOp)
    requires Valid(shared) && Candidate(shared, op).Some?
    ensures Valid(Candidate(shared, op).value) && Successor(shared, Candidate(shared, op).value)
    ensures op.Acknowledge? || op.ChangeSettings? ==> SameVersion(shared, Candidate(shared, op).value)
    ensures op.ApplyVoiceConfig? ==>
              var c := Candidate(shared, op).value;
              c.published.Some? && c.published.value.revision == Revision(shared) + 1
              && c.published.value.commands == EnabledCommands(c.actions)
              && c.published.value.actionsRevision == c.actionsRevision
    ensures op.SaveActions? ==>
              Candidate(shared, op).value.published == shared.published
              && Candidate(shared, op).value.actionsRevision == shared.actionsRevision + 1
  {
  }

  /** Exactly what a writer stores and when: actions that are valid, under the next action revision; a
      publication while a revision is left; an acknowledgement of the table that is served and not yet
      acknowledged; an address that may be bound, with a port.  Nothing else in the configuration changes. */
  lemma {:induction false} StoresExactly(shared: AppConfig, op: WriteOp)
    requires Valid(shared)
    ensures var stored := Candidate(shared, op);
            match op
            case SaveActions(actions) =>
              (stored.Some? <==> ActionsValid(actions) && shared.actionsRevision + 1 < U64_LIMIT)
              && (stored.Some? ==>
                    stored.value == shared.(actions := actions, actionsRevision := shared.actionsRevision + 1))
            case ApplyVoiceConfig =>
              (stored.Some? <==> Revision(shared) + 1 < U64_LIMIT)
              && (stored.Some? ==> stored.value == shared.(published := stored.value.published))
            case Acknowledge(revision) =>
              (stored.Some? <==> Serve(shared).Served? && Serve(shared).table.revision == revision
                                 && shared.acknowledged != Some(revision))
              && (stored.Some? ==> stored.value == shared.(acknowledged := Some(revision)))
            case ChangeSettings(listenerEnabled, bindAddress, port, startAfterLogin) =>
              (stored.Some? <==> bindAddress.bindAllowed && port != 0)
              && (stored.Some? ==>
                    stored.value == shared.(listenerEnabled := listenerEnabled, bindAddress := bindAddress,
                                            port := port, startAfterLogin := startAfterLogin))
  {
    if op.ApplyVoiceConfig? {
      PublishingMakesProgress(shared);
    } else if op.Acknowledge? {
      ServedTableFits(shared);
    }
  }

  predicate CopiesAgree(s: State) {
    match s.writer
    case Free => SameVersion(s.disk, s.dispatcher) && SameVersion(s.dispatcher, s.shared)
    case Saved(c, cancellable) =>
      s.disk == c && Successor(s.shared, c) && SameVersion(s.dispatcher, s.shared)
      && (cancellable ==> SameVersion(s.shared, c))
    case Replaced(c) => s.disk == c && s.dispatcher == c && Successor(s.shared, c)
  }

  /** A configuration's table is the one recorded for its revision, and while it is not stale the actions
      are those recorded with it. */
  predicate Known(c: AppConfig, meanings: map<nat, Meaning>) {
    c.published.Some? ==>
      var p := c.published.value;
      p.revision in meanings && meanings[p.revision].table == p
      && (p.actionsRevision == c.actionsRevision ==> c.actions == meanings[p.revision].actions)
  }

  predicate MeaningsSound(s: State) {
    forall r | r in s.meanings ::
      0 < r <= Revision(s.disk) && s.meanings[r].table.revision == r
      && s.meanings[r].table.commands == EnabledCommands(s.meanings[r].actions)
      && s.meanings[r].table.schema == VOICE_CONFIG_SCHEMA && CommandsValid(s.meanings[r].table.commands)
      && UniqueIds(s.meanings[r].actions)
  }

  /** The work is what the request selects in the configuration that admitted it. */
  predicate WellAdmitted(x: Job) {
    x.request.Custom? ==>
      var resolved := Resolve(x.admittedUnder, x.request.custom);
      resolved.Ok? && x.work == RunDefinition(resolved.value)
  }

  /** A handler that holds the lock was admitted under the dispatcher's current configuration. */
  predicate FlightsAdmitted(s: State) {
    (forall id | id in s.inFlight ::
       id < s.arrivals && s.inFlight[id].admittedUnder == s.dispatcher && WellAdmitted(s.inFlight[id]))
    && forall id | id in s.detached :: id < s.arrivals && WellAdmitted(s.detached[id])
  }

  predicate Inv(s: State) {
    Valid(s.disk) && Valid(s.dispatcher) && Valid(s.shared)
    && CopiesAgree(s)
    && Known(s.disk, s.meanings) && Known(s.dispatcher, s.meanings) && Known(s.shared, s.meanings)
    && MeaningsSound(s) && FlightsAdmitted(s)
  }

  lemma {:induction false} WriteKeepsInv(s: State, op: WriteOp)
    requires Inv(s) && s.writer.Free? && Candidate(s.shared, op).Some?
    ensures Inv(Apply(s, BeginWrite(op, true)))
    ensures NotNewer(s.disk, Apply(s, BeginWrite(op, true)).disk)
    ensures s.meanings.Keys <= Apply(s, BeginWrite(op, true)).meanings.Keys
    ensures forall r | r in s.meanings :: Apply(s, BeginWrite(op, true)).meanings[r] == s.meanings[r]
  {
    CandidateIsSuccessor(s.shared, op);
  }

  lemma {:induction false} ArriveKeepsInv(s: State, request: Request, lockFree: bool, now: U64, slotFree: bool)
    requires Inv(s)
    ensures Inv(Apply(s, Arrive(request, lockFree, now, slotFree)))
  {
    var a := Attempt(request, s.dispatcher, lockFree, now, slotFree);
    var s' := Apply(s, Arrive(request, lockFree, now, slotFree));
    assert Admit(s.entries, a).Ok? ==> Screen(a) == Admit(s.entries, a);
    assert s' == s.(entries := s'.entries, arrivals := s'.arrivals, inFlight := s'.inFlight);
  }

  predicate Reads(e: Event) {
    e.Restart? ==> e.fileReadable
  }

  /** One step of any writer, arrival, completion, cancellation or restart keeps the invariant, never moves
      the file to an older version and never changes what a revision stood for. */
  lemma {:induction false} StepKeepsInv(s: State, e: Event)
    requires Inv(s) && Enabled(s, e) && Reads(e)
    ensures Inv(Apply(s, e)) && NotNewer(s.disk, Apply(s, e).disk)
    ensures forall r | r in s.meanings :: r in Apply(s, e).meanings && Apply(s, e).meanings[r] == s.meanings[r]
  {
    match e
    case BeginWrite(op, fileSaved) =>
      if Candidate(s.shared, op).Some? && fileSaved {
        WriteKeepsInv(s, op);
      }
    case Arrive(request, lockFree, now, slotFree) => ArriveKeepsInv(s, request, lockFree, now, slotFree);
    case _ =>
  }

  // Runs.

  predicate IsRun(states: seq<State>, events: seq<Event>) {
    |states| == |events| + 1 && states[0] == INITIAL
    && forall i | 0 <= i < |events| ::
      Enabled(states[i], events[i]) && Reads(events[i]) && states[i + 1] == Apply(states[i], events[i])
  }

  lemma {:induction false} RunKeepsInv(states: seq<State>, events: seq<Event>, n: nat)
    requires IsRun(states, events) && n < |states|
    ensures Inv(states[n])
  {
    if n == 0 {
    } else {
      RunKeepsInv(states, events, n - 1);
      StepKeepsInv(states[n - 1], events[n - 1]);
    }
  }

  lemma {:induction false} RunStep(states: seq<State>, events: seq<Event>, n: nat)
    requires IsRun(states, events) && n < |events|
    ensures NotNewer(states[n].disk, states[n + 1].disk)
  {
    RunKeepsInv(states, events, n);
    StepKeepsInv(states[n], events[n]);
  }

  lemma {:induction false} DiskNeverGoesBack(states: seq<State>, events: seq<Event>, i: nat, j: nat)
    requires IsRun(states, events) && i <= j < |states|
    ensures NotNewer(states[i].disk, states[j].disk)
  {
    var published: seq<nat> := seq(|states|, k requires 0 <= k < |states| => Revision(states[k].disk));
    var actions: seq<nat> := seq(|states|, k requires 0 <= k < |states| => states[k].disk.actionsRevision);
    forall k | 0 < k < |states|
      ensures published[k - 1] <= published[k] && actions[k - 1] <= actions[k]
    {
      RunStep(states, events, k - 1);
    }
    Ascending(published, i, j);
    Ascending(actions, i, j);
  }

  /** At every moment of every run the versions satisfy shared <= dispatcher <= disk, with equality whenever
      the lifecycle lock is free, and every handler that waits for its execution was admitted under the
      dispatcher's current configuration: no replacement overlaps a handler that holds the lock. */
  lemma {:induction false} CopiesOrdered(states: seq<State>, events: seq<Event>, n: nat)
    requires IsRun(states, events) && n < |states|
    ensures NotNewer(states[n].shared, states[n].dispatcher) && NotNewer(states[n].dispatcher, states[n].disk)
    ensures states[n].writer.Free? ==>
              SameVersion(states[n].shared, states[n].dispatcher) && SameVersion(states[n].dispatcher, states[n].disk)
    ensures forall id | id in states[n].inFlight :: states[n].inFlight[id].admittedUnder == states[n].dispatcher
  {
    RunKeepsInv(states, events, n);
  }

  /** A table that was ever served stays covered: at every later moment, and hence after every restart, the
      file holds its revision or a newer one. */
  lemma {:induction false} ServedIsNeverForgotten(states: seq<State>, events: seq<Event>, i: nat, j: nat)
    requires IsRun(states, events) && i <= j < |states| && Serve(states[i].shared).Served?
    ensures Serve(states[i].shared).table.revision <= Revision(states[j].disk)
    ensures Enabled(states[j], Restart(true))
    ensures Serve(states[i].shared).table.revision <= Revision(Apply(states[j], Restart(true)).shared)
  {
    CopiesOrdered(states, events, i);
    DiskNeverGoesBack(states, events, i, j);
  }

  /** An unreadable file is replaced by the default configuration: memory then agrees with the file exactly
      when the file was read, or never held anything. */
  lemma {:induction false} RestartAgreesWithDisk(s: State, fileReadable: bool)
    ensures SameVersion(Apply(s, Restart(fileReadable)).shared, s.disk) <==>
            fileReadable || (s.disk.actions == [] && s.disk.actionsRevision == 0 && s.disk.published.None?)
  {
  }

  // Executions and replacements of the dispatcher's configuration.

  predicate Working(s: State, id: nat) {
    id in s.inFlight || id in s.detached
  }

  /** From after event `d` up to event `n`, the work neither completes nor ends with the daemon. */
  predicate GoesOn(events: seq<Event>, d: nat, n: nat, id: nat)
    requires n <= |events|
  {
    forall k | d < k < n :: events[k] != Complete(id) && !events[k].Restart?
  }

  /** Work without a handler goes back to the moment its handler was dropped. */
  lemma {:induction false} DetachedSince(states: seq<State>, events: seq<Event>, n: nat, id: nat) returns (d: nat)
    requires IsRun(states, events) && n <= |events| && id in states[n].detached
    ensures d < n && events[d] == Drop(id) && GoesOn(events, d, n, id)
  {
    assert n > 0;
    var before, e := states[n - 1], events[n - 1];
    assert states[n] == Apply(before, e);
    if e == Drop(id) {
      d := n - 1;
    } else {
      d := DetachedSince(states, events, n - 1, id);
    }
  }

  lemma {:induction false} StaysDetached(states: seq<State>, events: seq<Event>, d: nat, n: nat, id: nat)
    requires IsRun(states, events) && d < n <= |events| && events[d] == Drop(id) && GoesOn(events, d, n, id)
    ensures id in states[n].detached
  {
    var before, e := states[n - 1], events[n - 1];
    assert Enabled(before, e) && states[n] == Apply(before, e);
    if d == n - 1 {
    } else {
      StaysDetached(states, events, d, n - 1, id);
    }
  }

  /** Exactly when a replacement of the dispatcher's configuration overlaps an execution: its handler was
      dropped before the work was done, and neither the end of the work nor a restart came before the
      replacement. */
  lemma {:induction false} OverlapExactly(states: seq<State>, events: seq<Event>, n: nat, id: nat)
    requires IsRun(states, events) && n < |events| && events[n].ReplaceDispatcher?
    ensures Working(states[n], id) <==> exists d | 0 <= d < n :: events[d] == Drop(id) && GoesOn(events, d, n, id)
  {
    assert Enabled(states[n], events[n]);
    if Working(states[n], id) {
      var d := DetachedSince(states, events, n, id);
    }
    if exists d | 0 <= d < n :: events[d] == Drop(id) && GoesOn(events, d, n, id) {
      var d: nat :| d < n && events[d] == Drop(id) && GoesOn(events, d, n, id);
      StaysDetached(states, events, d, n, id);
    }
  }

  /** Event `k` is the arrival with this number, and its work is started. */
  predicate StartsAt(states: seq<State>, events: seq<Event>, k: nat, id: nat)
    requires k < |events| && k < |states|
  {
    match events[k]
    case Arrive(request, lockFree, now, slotFree) =>
      id == states[k].arrivals && slotFree
      && Admit(states[k].entries, Attempt(request, states[k].dispatcher, lockFree, now, slotFree)).Ok?
    case _ => false
  }

  /** From after event `k` up to event `n`, the work does not end, and its handler is not dropped. */
  predicate WaitsOn(events: seq<Event>, k: nat, n: nat, id: nat)
    requires n <= |events|
  {
    forall j | k < j < n :: events[j] != Finish(id) && events[j] != Drop(id) && !events[j].Restart?
  }

  lemma {:induction false} HandlerStep(states: seq<State>, events: seq<Event>, m: nat, id: nat)
    requires IsRun(states, events) && m < |events| && Inv(states[m])
    ensures id in states[m + 1].inFlight
            <==> StartsAt(states, events, m, id)
                 || (id in states[m].inFlight
                     && events[m] != Finish(id) && events[m] != Drop(id) && !events[m].Restart?)
  {
    assert Enabled(states[m], events[m]) && states[m + 1] == Apply(states[m], events[m]);
  }

  predicate StartedAndWaits(states: seq<State>, events: seq<Event>, n: nat, id: nat)
    requires n <= |events| <= |states|
  {
    exists k | 0 <= k < n :: StartsAt(states, events, k, id) && WaitsOn(events, k, n, id)
  }

  lemma {:induction false} WaitsStep(states: seq<State>, events: seq<Event>, n: nat, id: nat)
    requires 0 < n <= |events| <= |states|
    ensures StartedAndWaits(states, events, n, id)
            <==> StartsAt(states, events, n - 1, id)
                 || (StartedAndWaits(states, events, n - 1, id)
                     && events[n - 1] != Finish(id) && events[n - 1] != Drop(id) && !events[n - 1].Restart?)
  {
    var m := n - 1;
    if StartsAt(states, events, m, id) {
      assert WaitsOn(events, m, n, id);
    } else if StartedAndWaits(states, events, n, id) {
      var k :| 0 <= k < n && StartsAt(states, events, k, id) && WaitsOn(events, k, n, id);
      assert WaitsOn(events, k, m, id);
    }
    if StartedAndWaits(states, events, m, id)
       && events[m] != Finish(id) && events[m] != Drop(id) && !events[m].Restart? {
      var k :| 0 <= k < m && StartsAt(states, events, k, id) && WaitsOn(events, k, m, id);
      assert WaitsOn(events, k, n, id);
    }
  }

  /** Exactly when a handler holds the lock, which is what a replacement waits for: its work was started, and
      has neither ended nor lost its handler since, nor has the daemon restarted. */
  lemma {:induction false} HandlerWaitsExactly(states: seq<State>, events: seq<Event>, n: nat, id: nat)
    requires IsRun(states, events) && n < |states|
    ensures id in states[n].inFlight <==> StartedAndWaits(states, events, n, id)
  {
    if n == 0 {
    } else {
      HandlerWaitsExactly(states, events, n - 1, id);
      RunKeepsInv(states, events, n - 1);
      HandlerStep(states, events, n - 1, id);
      WaitsStep(states, events, n, id);
    }
  }

  /** An acknowledgement that is dropped while it waits frees the lock and leaves only the file changed. */
  lemma {:induction false} CancelledWriter(s: State)
    requires Enabled(s, CancelWaiting)
    ensures Apply(s, CancelWaiting) == s.(writer := Free)
  {
  }

  // What an accepted custom request means.

  lemma {:induction false} FindActionAt(actions: seq<CustomAction>, i: nat)
    requires UniqueIds(actions) && i < |actions|
    ensures FindAction(actions, actions[i].id) == Some(actions[i])
  {
    if i == 0 {
    } else {
      FindActionAt(actions[1..], i - 1);
    }
  }

  /** After the stale test of a reachable state, the request names an action that was enabled when its
      revision was published, and the definition is the one of that moment.  The unknown-action and
      disabled-action refusals cannot happen. */
  lemma {:induction false} ResolvesAsPublished(s: State, request: CustomActionRequest)
    requires Inv(s)
    ensures Resolve(s.dispatcher, request) != Err(UnknownAction)
    ensures Resolve(s.dispatcher, request) != Err(DisabledAction)
    ensures Resolve(s.dispatcher, request).Ok? ==>
              request.voiceRevision in s.meanings
              && Names(s.meanings[request.voiceRevision].table.commands, request.actionId)
              && FindAction(s.meanings[request.voiceRevision].actions, request.actionId).Some?
              && FindAction(s.meanings[request.voiceRevision].actions, request.actionId).value.enabled
              && FindAction(s.meanings[request.voiceRevision].actions, request.actionId).value.definition
                 == Resolve(s.dispatcher, request).value
  {
    var c := s.dispatcher;
    if c.published.Some? {
      var p := c.published.value;
      if p.revision == request.voiceRevision && p.actionsRevision == c.actionsRevision
         && Names(p.commands, request.actionId) {
        var k :| 0 <= k < |p.commands| && p.commands[k].actionId == request.actionId;
        var i := CommandNamesAction(c.actions, k);
        FindActionAt(c.actions, i);
      }
    }
  }

  /** A whole write: file, dispatcher, shared copy. */
  function Written(s: State, op: WriteOp): State
    requires s.writer.Free? && s.inFlight == map[]
  {
    var saved := Apply(s, BeginWrite(op, true));
    if saved.writer.Free? then saved else Apply(Apply(saved, ReplaceDispatcher), PublishShared)
  }

  /** Why the file must be readable: after a restart that falls back to the default configuration, revisions
      start over, and one request means two different definitions. */
  lemma {:induction false} UnreadableFileReusesRevision()
    ensures var act := (text: string) => CustomAction("a", true, Some("go"), Definition(text, true));
            var request := CustomActionRequest("r", "a", 1, 0, 5000);
            var first := Written(Written(INITIAL, SaveActions([act("one")])), ApplyVoiceConfig);
            var second := Written(Written(Apply(first, Restart(false)), SaveActions([act("two")])), ApplyVoiceConfig);
            Resolve(first.dispatcher, request) == Ok(Definition("one", true))
            && Resolve(second.dispatcher, request) == Ok(Definition("two", true))
  {
    WrittenTwice(INITIAL, Definition("one", true));
    var act := (text: string) => CustomAction("a", true, Some("go"), Definition(text, true));
    var first := Written(Written(INITIAL, SaveActions([act("one")])), ApplyVoiceConfig);
    WrittenTwice(Apply(first, Restart(false)), Definition("two", true));
  }

  lemma {:induction false} OneCommand(action: CustomAction)
    requires action.enabled && action.phrase.Some? && IsPhrase(action.phrase.value) && action.definition.wellFormed
    ensures var commands := [VoiceCommand(action.phrase.value, action.id)];
            EnabledCommands([action]) == commands && DraftCommands([action]) == commands && CommandsValid(commands)
  {
    var commands := [VoiceCommand(action.phrase.value, action.id)];
    assert [action][1..] == [];
    assert EnabledCommands([action]) == commands + EnabledCommands([]);
    assert DraftCommands([action]) == commands + DraftCommands([]);
  }

  lemma {:induction false} GoIsPhrase()
    ensures IsPhrase("go")
  {
    assert Lowercase("go") == "go";
    assert "go" !in RESERVED;
  }

  /** The configuration after saving one action with the phrase "go" and publishing it. */
  function AppliedConfig(definition: Definition): AppConfig {
    DEFAULT_CONFIG.(
      actions := [CustomAction("a", true, Some("go"), definition)], actionsRevision := 1,
      published := Some(PublishedVoiceConfig(VOICE_CONFIG_SCHEMA, 1, 1, [VoiceCommand("go", "a")])))
  }

  lemma {:induction false} WrittenTwice(s: State, definition: Definition)
    requires s.shared == DEFAULT_CONFIG && s.writer.Free? && s.inFlight == map[] && definition.wellFormed
    ensures var saved := Written(s, SaveActions([CustomAction("a", true, Some("go"), definition)]));
            saved.writer.Free? && saved.inFlight == map[]
            && var after := Written(saved, ApplyVoiceConfig);
               after.writer.Free? && after.inFlight == map[]
               && after.shared == AppliedConfig(definition) && after.dispatcher == after.shared
               && after.entries == s.entries && after.arrivals == s.arrivals
               && Resolve(after.dispatcher, CustomActionRequest("r", "a", 1, 0, 5000)) == Ok(definition)
  {
    var action := CustomAction("a", true, Some("go"), definition);
    var commands := [VoiceCommand("go", "a")];
    GoIsPhrase();
    OneCommand(action);
    var one := DEFAULT_CONFIG.(actions := [action], actionsRevision := 1);
    assert Candidate(s.shared, SaveActions([action])) == Some(one);
    PublishingMakesProgress(one);
    assert commands[0].actionId == "a";
  }

  // A run in which an execution outlives the configuration that admitted it.

  ghost predicate Reached(s: State) {
    exists states: seq<State>, events: seq<Event> :: IsRun(states, events) && states[|events|] == s
  }

  lemma {:induction false} InitialReached()
    ensures Reached(INITIAL)
  {
    var none: seq<Event> := [];
    assert IsRun([INITIAL], none) && [INITIAL][|none|] == INITIAL;
  }

  lemma {:induction false} RunExtends(states: seq<State>, events: seq<Event>, e: Event)
    requires IsRun(states, events) && Enabled(states[|events|], e) && Reads(e)
    ensures IsRun(states + [Apply(states[|events|], e)], events + [e])
  {
    var last := states[|events|];
    var more, further := states + [Apply(last, e)], events + [e];
    forall i | 0 <= i < |further|
      ensures Enabled(more[i], further[i]) && Reads(further[i]) && more[i + 1] == Apply(more[i], further[i])
    {
      if i < |events| {
        assert Enabled(states[i], events[i]) && states[i + 1] == Apply(states[i], events[i]);
        assert more[i] == states[i] && more[i + 1] == states[i + 1] && further[i] == events[i];
      } else {
        assert more[i] == last && further[i] == e;
      }
    }
    assert more[0] == states[0];
  }

  lemma {:induction false} ReachStep(s: State, e: Event)
    requires Reached(s) && Enabled(s, e) && Reads(e)
    ensures Reached(Apply(s, e))
  {
    var states: seq<State>, events: seq<Event> :| IsRun(states, events) && states[|events|] == s;
    RunExtends(states, events, e);
    assert (states + [Apply(s, e)])[|events + [e]|] == Apply(s, e);
  }

  lemma {:induction false} ReachWrite(s: State, op: WriteOp)
    requires Reached(s) && s.writer.Free? && s.inFlight == map[]
    ensures Reached(Written(s, op))
  {
    ReachStep(s, BeginWrite(op, true));
    var saved := Apply(s, BeginWrite(op, true));
    if saved.writer.Saved? {
      ReachStep(saved, ReplaceDispatcher);
      ReachStep(Apply(saved, ReplaceDispatcher), PublishShared);
    }
  }

  /** An elevated launch waits for the user; its handler is dropped after two seconds; another definition is
      saved; the dispatcher's configuration is replaced while the first definition is still at work. */
  lemma {:induction false} OverlapHappens() returns (states: seq<State>, events: seq<Event>)
    ensures IsRun(states, events) && events != [] && events[|events| - 1].ReplaceDispatcher?
    ensures Working(states[|events| - 1], 0)
    ensures 0 in states[|events|].detached
            && states[|events|].detached[0].work == RunDefinition(Definition("one", true))
    ensures states[|events|].dispatcher.actions == [CustomAction("a", true, Some("go"), Definition("two", true))]
  {
    var before := OverlapApproached();
    states, events :| IsRun(states, events) && states[|events|] == before;
    RunExtends(states, events, ReplaceDispatcher);
    states, events := states + [Apply(before, ReplaceDispatcher)], events + [ReplaceDispatcher];
  }

  lemma {:induction false} CanSaveAnother(one: Definition, two: Definition)
    requires two.wellFormed
    ensures Candidate(AppliedConfig(one), SaveActions([CustomAction("a", true, Some("go"), two)])).Some?
  {
    GoIsPhrase();
    OneCommand(CustomAction("a", true, Some("go"), two));
  }

  const OVERLAPPED := Request.Custom(CustomActionRequest("r", "a", 1, 0, 5000))

  lemma {:induction false} PublishedReached(one: Definition) returns (s: State)
    requires one.wellFormed
    ensures Reached(s) && s.writer.Free? && s.inFlight == map[] && s.entries == [] && s.arrivals == 0
    ensures s.shared == s.dispatcher == AppliedConfig(one)
    ensures Resolve(s.dispatcher, OVERLAPPED.custom) == Ok(one)
  {
    var action := CustomAction("a", true, Some("go"), one);
    InitialReached();
    WrittenTwice(INITIAL, one);
    ReachWrite(INITIAL, SaveActions([action]));
    var saved := Written(INITIAL, SaveActions([action]));
    ReachWrite(saved, ApplyVoiceConfig);
    s := Written(saved, ApplyVoiceConfig);
  }

  lemma {:induction false} OverlapApproached() returns (s: State)
    ensures Reached(s) && Enabled(s, ReplaceDispatcher)
    ensures 0 in s.detached && s.detached[0].work == RunDefinition(Definition("one", true))
    ensures s.writer.candidate.actions == [CustomAction("a", true, Some("go"), Definition("two", true))]
  {
    var one, two := Definition("one", true), Definition("two", true);
    var published := PublishedReached(one);
    var arrive := Arrive(OVERLAPPED, true, 0, true);
    ReachStep(published, arrive);
    var arrived := Apply(published, arrive);
    assert arrived.inFlight == map[0 := Job(OVERLAPPED, RunDefinition(one), published.dispatcher)];
    ReachStep(arrived, Drop(0));
    var dropped := Apply(arrived, Drop(0));
    CanSaveAnother(one, two);
    var save := BeginWrite(SaveActions([CustomAction("a", true, Some("go"), two)]), true);
    ReachStep(dropped, save);
    s := Apply(dropped, save);
  }
}

/** Admission and execution of authenticated requests on the PC. */
module Dispatch {
  import opened Common
  import opened Domain
  import opened Config
  import opened ReplayCache

  datatype MediaRequest = MediaRequest(id: string, command: MediaCommand, issuedAt: U64, expiresAt: U64)

  datatype CustomActionRequest = CustomActionRequest(
    id: string, actionId: ActionId, voiceRevision: U64, issuedAt: U64, expiresAt: U64)

  datatype DispatchError =
    | TimeInvalid | TimeExpired | TimeSkewed
    | DuplicateRequest | DispatchBusy
    | UnknownAction | DisabledAction | StaleVoiceConfig
    | Execution | ExecutionWithReason(reason: string) | ExecutionCancelled | ExecutionBusy
    | Configuration

  datatype ExecutorResult = Done | Failed | FailedWithReason(reason: string) | ExecutorBusy | Cancelled

  /** How a handler's wait for the executor ends: with the executor's result, or by the handler being dropped
      (the two-second limit, or the client going away), while the work that was handed over goes on. */
  datatype Wait = Returned(result: ExecutorResult) | Dropped

  datatype Work = RunMedia(command: MediaCommand) | RunDefinition(definition: Definition)

  datatype Executed = Executed(id: string, work: Work)

  datatype DiagnosticEvent = DiagnosticEvent(
    requestId: Option<string>, actionId: Option<string>, category: string, reason: Option<string>)

  function TimeCheck(issued: U64, expires: U64, now: U64): Result<(), DispatchError> {
    match ValidateTime(issued, expires, now)
    case Ok(_) => Ok(())
    case Err(Expired) => Err(TimeExpired)
    case Err(ClockSkew) => Err(TimeSkewed)
    case Err(InvalidTime) => Err(TimeInvalid)
  }

  /** The first action with an id. */
  function FindAction(actions: seq<CustomAction>, id: string): Option<CustomAction> {
    if actions == [] then None
    else if actions[0].id == id then Some(actions[0])
    else FindAction(actions[1..], id)
  }

  predicate Names(commands: seq<ParsedCommand>, id: string) {
    exists k | 0 <= k < |commands| :: commands[k].actionId == id
  }

  /** The definition a custom request selects, or the refusal. */
  function Resolve(config: AppConfig, request: CustomActionRequest): Result<Definition, DispatchError> {
    if config.published.None? then Err(StaleVoiceConfig)
    else
      var published := config.published.value;
      if published.revision != request.voiceRevision
         || published.actionsRevision != config.actionsRevision
         || !Names(published.commands, request.actionId) then Err(StaleVoiceConfig)
      else
        var action := FindAction(config.actions, request.actionId);
        if action.None? then Err(UnknownAction)
        else if !action.value.enabled then Err(DisabledAction)
        else Ok(action.value.definition)
  }

  datatype Request = Media(media: MediaRequest) | Custom(custom: CustomActionRequest)
  {
    function Id(): string {
      if Media? then media.id else custom.id
    }

    function IssuedAt(): U64 {
      if Media? then media.issuedAt else custom.issuedAt
    }

    function ExpiresAt(): U64 {
      if Media? then media.expiresAt else custom.expiresAt
    }
  }

  /** One arrival, at the moment it reaches the replay cache: the request, the configuration in force, whether
      the lifecycle lock could be read-locked at once, the clock reading, which was taken earlier, and
      whether the executor has a free slot for the work. */
  datatype Attempt = Attempt(request: Request, config: AppConfig, lockFree: bool, now: U64, slotFree: bool)

  /** Everything that is decided before the replay cache is asked. */
  function Screen(a: Attempt): Result<Work, DispatchError> {
    var time := TimeCheck(a.request.IssuedAt(), a.request.ExpiresAt(), a.now);
    if time.Err? then Err(time.error)
    else if !a.lockFree then Err(DispatchBusy)
    else if a.request.Media? then Ok(RunMedia(a.request.media.command))
    else
      var resolved := Resolve(a.config, a.request.custom);
      if resolved.Err? then Err(resolved.error) else Ok(RunDefinition(resolved.value))
  }

  function CacheStep(a: Attempt): Step {
    if Screen(a).Ok? then Call(a.request.Id(), a.request.ExpiresAt(), a.now) else Idle
  }

  function EntriesAfter(entries: seq<Reservation>, a: Attempt): seq<Reservation> {
    if Screen(a).Ok? then Reserving(entries, a.request.Id(), a.request.ExpiresAt(), a.now).0 else entries
  }

  /** The work an arrival hands to the executor, or why it hands over none. */
  function Admit(entries: seq<Reservation>, a: Attempt): Result<Work, DispatchError> {
    if Screen(a).Err? then Screen(a)
    else
      match Decide(Live(entries, a.now), a.request.Id())
      case Reserved => Screen(a)
      case Duplicate => Err(DuplicateRequest)
      case Busy => Err(DispatchBusy)
  }

  // Exactly when an arrival is admitted, in terms of the request, the configuration and the reservations.

  predicate InTime(request: Request, now: U64) {
    request.ExpiresAt() == request.IssuedAt() + 5000
    && request.IssuedAt() - 5000 <= now < request.IssuedAt() + 5000
  }

  /** The request is about the published table, no action was saved since, and the table names its action. */
  predicate Current(config: AppConfig, request: CustomActionRequest) {
    config.published.Some?
    && config.published.value.revision == request.voiceRevision
    && config.published.value.actionsRevision == config.actionsRevision
    && exists k | 0 <= k < |config.published.value.commands| ::
         config.published.value.commands[k].actionId == request.actionId
  }

  predicate FirstWithId(actions: seq<CustomAction>, id: string, i: nat) {
    i < |actions| && actions[i].id == id && forall j | 0 <= j < i :: actions[j].id != id
  }

  /** The search stops at the first action with the id, or finds none. */
  lemma {:induction false} FindsFirst(actions: seq<CustomAction>, id: string) returns (i: nat)
    ensures i <= |actions| && forall j | 0 <= j < i :: actions[j].id != id
    ensures i < |actions| ==> FirstWithId(actions, id, i) && FindAction(actions, id) == Some(actions[i])
    ensures i == |actions| ==> FindAction(actions, id) == None
  {
    if actions == [] || actions[0].id == id {
      i := 0;
    } else {
      var rest := FindsFirst(actions[1..], id);
      i := rest + 1;
      assert forall j | 0 < j < i :: actions[j] == actions[1..][j - 1];
    }
  }

  /** A media key needs nothing more; a custom request needs the first action with its id to be enabled. */
  predicate Selects(config: AppConfig, request: Request) {
    request.Custom? ==>
      Current(config, request.custom)
      && exists i | 0 <= i < |config.actions| ::
           FirstWithId(config.actions, request.custom.actionId, i) && config.actions[i].enabled
  }

  /** A reservation of the id that has not expired. */
  predicate RemembersId(entries: seq<Reservation>, id: string, now: U64) {
    exists e :: e in entries && e.id == id && e.expiresAt > now
  }

  lemma {:induction false} ResolvesExactly(config: AppConfig, request: CustomActionRequest)
    ensures Resolve(config, request).Ok? <==> Selects(config, Custom(request))
    ensures Resolve(config, request) == Err(StaleVoiceConfig) <==> !Current(config, request)
    ensures Resolve(config, request) == Err(UnknownAction)
            <==> Current(config, request)
                 && forall i | 0 <= i < |config.actions| :: config.actions[i].id != request.actionId
    ensures Resolve(config, request) == Err(DisabledAction)
            <==> Current(config, request)
                 && exists i | 0 <= i < |config.actions| ::
                      FirstWithId(config.actions, request.actionId, i) && !config.actions[i].enabled
    ensures forall i | 0 <= i < |config.actions| && FirstWithId(config.actions, request.actionId, i) ::
              Resolve(config, request).Ok? ==> Resolve(config, request).value == config.actions[i].definition
  {
    var first := FindsFirst(config.actions, request.actionId);
    assert forall i | 0 <= i < |config.actions| && FirstWithId(config.actions, request.actionId, i) :: i == first;
  }

  /** What an arrival is given before the cache is asked: the first refusal that applies, in this order, or
      the work it asks for. */
  lemma {:induction false} ScreenedExactly(a: Attempt)
    ensures Screen(a).Ok? <==> InTime(a.request, a.now) && a.lockFree && Selects(a.config, a.request)
    ensures a.request.ExpiresAt() != a.request.IssuedAt() + 5000 <==> Screen(a) == Err(TimeInvalid)
    ensures a.request.ExpiresAt() == a.request.IssuedAt() + 5000 <= a.now <==> Screen(a) == Err(TimeExpired)
    ensures a.request.ExpiresAt() == a.request.IssuedAt() + 5000 && a.now < a.request.IssuedAt() - 5000
            <==> Screen(a) == Err(TimeSkewed)
    ensures InTime(a.request, a.now) && !a.lockFree <==> Screen(a) == Err(DispatchBusy)
    ensures InTime(a.request, a.now) && a.lockFree && a.request.Custom? ==>
              Screen(a) == match Resolve(a.config, a.request.custom)
                           case Ok(definition) => Ok(RunDefinition(definition))
                           case Err(error) => Err(error)
    ensures Screen(a).Ok? && a.request.Media? ==> Screen(a).value == RunMedia(a.request.media.command)
  {
    InTimeExactly(a.request.IssuedAt(), a.request.ExpiresAt(), a.now);
    if a.request.Custom? {
      ResolvesExactly(a.config, a.request.custom);
    }
  }

  /** Exactly when an arrival is admitted, and for what each refusal stands: the time, the lock, a stale, an
      unknown or a disabled action, an id that is still remembered, a full cache. */
  lemma {:induction false} AdmittedExactly(entries: seq<Reservation>, a: Attempt)
    ensures var passes := InTime(a.request, a.now) && a.lockFree && Selects(a.config, a.request);
            var known, full := RemembersId(entries, a.request.Id(), a.now), |Live(entries, a.now)| >= 128;
            (Admit(entries, a).Ok? <==> passes && !known && !full)
            && (Admit(entries, a) == Err(DuplicateRequest) <==> passes && known)
            && (Admit(entries, a) == Err(DispatchBusy)
                <==> (InTime(a.request, a.now) && !a.lockFree) || (passes && !known && full))
            && (!passes ==> Admit(entries, a) == Screen(a))
    ensures Admit(entries, a).Ok? ==> Admit(entries, a) == Screen(a)
  {
    ScreenedExactly(a);
    LiveMembers(entries, a.now);
    if Screen(a).Err? && a.request.Custom? {
      ResolvesExactly(a.config, a.request.custom);
    }
  }

  function Reply(outcome: ExecutorResult): Result<(), DispatchError> {
    match outcome
    case Done => Ok(())
    case Failed => Err(Execution)
    case FailedWithReason(reason) => Err(ExecutionWithReason(reason))
    case ExecutorBusy => Err(ExecutionBusy)
    case Cancelled => Err(ExecutionCancelled)
  }

  function DiagnosticReason(reply: Result<(), DispatchError>): Option<string> {
    match reply
    case Err(ExecutionWithReason(reason)) => Some(reason)
    case Err(ExecutionBusy) => Some("Action executor is busy")
    case _ => None
  }

  function Diagnostic(request: Request, reply: Result<(), DispatchError>): DiagnosticEvent {
    match request
    case Media(m) =>
      DiagnosticEvent(Some(m.id), None, if reply.Ok? then "media_executed" else "media_failed", DiagnosticReason(reply))
    case Custom(c) =>
      DiagnosticEvent(Some(c.id), Some(c.actionId),
                      if reply.Ok? then "action_dispatched"
                      else if reply == Err(ExecutionCancelled) then "action_cancelled" else "action_failed",
                      DiagnosticReason(reply))
  }

  /** The answer tells every outcome apart, and its diagnostic event names the request and the action, and tells
      success, failure and, for an action, cancellation apart, with the reason if the executor gave one. */
  lemma {:induction false} OutcomesAreTold(request: Request, outcome: ExecutorResult, other: ExecutorResult)
    ensures Reply(outcome) == Reply(other) <==> outcome == other
    ensures Reply(outcome).Ok? <==> outcome.Done?
    ensures var event, custom := Diagnostic(request, Reply(outcome)), request.Custom?;
            event.requestId == Some(request.Id())
            && event.actionId == (if custom then Some(request.custom.actionId) else None)
            && (event.category == "media_executed" <==> !custom && outcome.Done?)
            && (event.category == "media_failed" <==> !custom && !outcome.Done?)
            && (event.category == "action_dispatched" <==> custom && outcome.Done?)
            && (event.category == "action_cancelled" <==> custom && outcome.Cancelled?)
            && (event.category == "action_failed" <==> custom && !outcome.Done? && !outcome.Cancelled?)
            && (event.reason.Some? <==> outcome.FailedWithReason? || outcome.ExecutorBusy?)
            && (outcome.FailedWithReason? ==> event.reason == Some(outcome.reason))
  {
  }

  /** The newest 128 events. */
  function Newest(events: seq<DiagnosticEvent>): (kept: seq<DiagnosticEvent>)
    ensures |kept| == if |events| <= 128 then |events| else 128
  {
    if |events| <= 128 then events else events[|events| - 128..]
  }

  lemma {:induction false} NewestAreLast(events: seq<DiagnosticEvent>, k: nat)
    requires k < |Newest(events)|
    ensures Newest(events)[k] == events[|events| - |Newest(events)| + k]
  {
  }

  class Dispatcher {
    var config: AppConfig
    const seen: DuplicateCache
    var diagnostics: seq<DiagnosticEvent>
    ghost var admitted: seq<Executed>
    ghost var executed: seq<Executed>
    ghost var recorded: seq<DiagnosticEvent>

    ghost predicate Ready()
      reads this
    {
      diagnostics == Newest(recorded)
    }

    constructor (config: AppConfig)
      requires Valid(config)
      ensures this.config == config && seen.entries == [] && fresh(seen)
      ensures admitted == [] && executed == [] && recorded == [] && Ready()
    {
      this.config := config;
      seen := new DuplicateCache();
      diagnostics, admitted, executed, recorded := [], [], [], [];
    }

    /** `replace_config`: an invalid configuration is refused and changes nothing. */
    method ReplaceConfig(config: AppConfig) returns (replaced: bool)
      modifies this`config
      ensures replaced <==> Valid(config)
      ensures this.config == if Valid(config) then config else old(this.config)
    {
      replaced := Validate(config);
      if replaced {
        this.config := config;
      }
    }

    method DispatchMedia(request: MediaRequest, now: U64, lockFree: bool, wait: Wait)
      returns (reply: Option<Result<(), DispatchError>>)
      requires Ready()
      modifies this`diagnostics, this`admitted, this`executed, this`recorded, seen
      ensures Ready()
      ensures Handled(Attempt(Media(request), config, lockFree, now, wait != Returned(ExecutorBusy)), wait, reply)
    {
      var time := TimeCheck(request.issuedAt, request.expiresAt, now);
      if time.Err? {
        return Some(time);
      }
      if !lockFree {
        return Some(Err(DispatchBusy));
      }
      var reserved := seen.Reserve(request.id, request.expiresAt, now);
      if reserved != Reserved {
        return Some(Err(if reserved.Duplicate? then DuplicateRequest else DispatchBusy));
      }
      admitted := admitted + [Executed(request.id, RunMedia(request.command))];
      if wait != Returned(ExecutorBusy) {
        executed := executed + [Executed(request.id, RunMedia(request.command))];
      }
      if wait.Dropped? {
        return None;
      }
      reply := Some(Reply(wait.result));
      Record(Diagnostic(Media(request), reply.value));
    }

    method DispatchCustom(request: CustomActionRequest, now: U64, lockFree: bool, wait: Wait)
      returns (reply: Option<Result<(), DispatchError>>)
      requires Ready()
      modifies this`diagnostics, this`admitted, this`executed, this`recorded, seen
      ensures Ready()
      ensures Handled(Attempt(Custom(request), config, lockFree, now, wait != Returned(ExecutorBusy)), wait, reply)
    {
      var time := TimeCheck(request.issuedAt, request.expiresAt, now);
      if time.Err? {
        return Some(time);
      }
      if !lockFree {
        return Some(Err(DispatchBusy));
      }
      var action := Resolve(config, request);
      if action.Err? {
        return Some(Err(action.error));
      }
      var reserved := seen.Reserve(request.id, request.expiresAt, now);
      if reserved != Reserved {
        return Some(Err(if reserved.Duplicate? then DuplicateRequest else DispatchBusy));
      }
      admitted := admitted + [Executed(request.id, RunDefinition(action.value))];
      if wait != Returned(ExecutorBusy) {
        executed := executed + [Executed(request.id, RunDefinition(action.value))];
      }
      if wait.Dropped? {
        return None;
      }
      reply := Some(Reply(wait.result));
      Record(Diagnostic(Custom(request), reply.value));
    }

    /** The effect of one arrival: the cache follows `EntriesAfter`; exactly the admitted arrivals are handed
        to the executor, once, and those it has a slot for execute; an admitted arrival leaves one
        diagnostic and a reply unless its handler is dropped, and then neither; a refusal leaves all logs
        alone. */
    twostate predicate Handled(a: Attempt, wait: Wait, new reply: Option<Result<(), DispatchError>>)
      reads this, seen
    {
      seen.entries == EntriesAfter(old(seen.entries), a)
      && match Admit(old(seen.entries), a)
         case Ok(work) =>
           var entry := Executed(a.request.Id(), work);
           admitted == old(admitted) + [entry]
           && executed == (if a.slotFree then old(executed) + [entry] else old(executed))
           && (match wait
               case Returned(result) =>
                 reply == Some(Reply(result))
                 && recorded == old(recorded) + [Diagnostic(a.request, Reply(result))]
               case Dropped => reply == None && recorded == old(recorded))
         case Err(error) =>
           admitted == old(admitted) && executed == old(executed) && recorded == old(recorded)
           && reply == Some(Err(error))
    }

    method Record(event: DiagnosticEvent)
      requires Ready()
      modifies this`diagnostics, this`recorded
      ensures Ready() && recorded == old(recorded) + [event]
    {
      if |diagnostics| == 128 {
        diagnostics := diagnostics[1..];
      }
      diagnostics := diagnostics + [event];
      recorded := recorded + [event];
    }
  }

  // Runs of arrivals on both endpoints, in the order in which they reach the replay cache, under any
  // configurations.  An arrival read the clock before; readings need not be in this order.

  function CacheSteps(run: seq<Attempt>): seq<Step> {
    seq(|run|, i requires 0 <= i < |run| => CacheStep(run[i]))
  }

  function Entries(run: seq<Attempt>): seq<Reservation> {
    if run == [] then [] else EntriesAfter(Entries(run[..|run| - 1]), run[|run| - 1])
  }

  /** The arrival gets past every test and reserves its id. */
  predicate Admitted(run: seq<Attempt>, i: nat)
    requires i < |run|
  {
    Admit(Entries(run[..i]), run[i]).Ok?
  }

  predicate Executes(run: seq<Attempt>, i: nat)
    requires i < |run|
  {
    Admitted(run, i) && run[i].slotFree
  }

  lemma {:induction false} EntriesAreCache(run: seq<Attempt>)
    ensures Entries(run) == After(CacheSteps(run))
    decreases |run|
  {
    if run == [] {
    } else {
      var n := |run| - 1;
      EntriesAreCache(run[..n]);
      assert CacheSteps(run)[..n] == CacheSteps(run[..n]);
    }
  }

  lemma {:induction false} AdmittedMeans(run: seq<Attempt>, i: nat)
    requires i < |run|
    ensures Admitted(run, i) <==> Accepted(CacheSteps(run), i)
  {
    EntriesAreCache(run[..i]);
    assert CacheSteps(run)[..i] == CacheSteps(run[..i]);
  }

  lemma {:induction false} AdmittedStep(run: seq<Attempt>, i: nat)
    requires i < |run| && Admitted(run, i)
    ensures Accepted(CacheSteps(run), i)
    ensures CacheSteps(run)[i] == Call(run[i].request.Id(), run[i].request.ExpiresAt(), run[i].now)
    ensures run[i].now < run[i].request.ExpiresAt() <= run[i].now + 10000
  {
    AdmittedMeans(run, i);
    assert CacheSteps(run)[i] == CacheStep(run[i]);
  }

  /** A byte-identical request that is admitted twice was overtaken: some arrival with a later reading than
      the second reached the cache before it. */
  lemma {:induction false} AdmittedTwiceOvertaken(run: seq<Attempt>, i: nat, j: nat)
    requires i < j < |run| && Admitted(run, i) && Admitted(run, j) && run[i].request == run[j].request
    ensures exists k | i < k < j :: run[k].now > run[j].now
  {
    AdmittedStep(run, i);
    AdmittedStep(run, j);
    var steps := CacheSteps(run);
    NoReplay(steps, i, j);
    assert ExpiredBetween(steps, i, j, run[i].request.ExpiresAt());
    CallsAreReaches(run, i, j, run[i].request.ExpiresAt());
  }

  /** So a request executes at most once, across both endpoints and any configuration changes, if arrivals
      reach the cache in the order of their readings. */
  lemma {:induction false} ExecutesAtMostOnce(run: seq<Attempt>, i: nat, j: nat)
    requires forall a, b | 0 <= a <= b < |run| :: run[a].now <= run[b].now
    requires i < j < |run| && Executes(run, i) && run[i].request == run[j].request
    ensures !Executes(run, j)
  {
    if Executes(run, j) {
      AdmittedTwiceOvertaken(run, i, j);
    }
  }

  predicate ReachesCache(run: seq<Attempt>, k: nat)
    requires k < |run|
  {
    Screen(run[k]).Ok?
  }

  /** Exactly when a repetition is admitted: one that has had no admitted repetition before it since the first
      is admitted if and only if it passes the tests before the cache, finds room in it, and an arrival that
      reached the cache in between carried a reading at or past the expiry. */
  lemma {:induction false} RepetitionAdmittedExactly(run: seq<Attempt>, i: nat, j: nat)
    requires i < j < |run| && Admitted(run, i) && run[i].request == run[j].request
    requires forall k | i < k < j :: Admitted(run, k) ==> run[k].request.Id() != run[j].request.Id()
    ensures Admitted(run, j)
            <==> ReachesCache(run, j) && |Live(Entries(run[..j]), run[j].now)| < MAX_REMEMBERED_IDS
                 && exists k | i < k < j :: ReachesCache(run, k) && run[k].now >= run[i].request.ExpiresAt()
  {
    if ReachesCache(run, j) {
      ReachingRepetition(run, i, j);
    }
  }

  lemma {:induction false} ReachingRepetition(run: seq<Attempt>, i: nat, j: nat)
    requires i < j < |run| && Admitted(run, i) && run[i].request == run[j].request && ReachesCache(run, j)
    requires forall k | i < k < j :: Admitted(run, k) ==> run[k].request.Id() != run[j].request.Id()
    ensures HoldsId(Live(Entries(run[..j]), run[j].now), run[j].request.Id())
            <==> !exists k | i < k < j :: ReachesCache(run, k) && run[k].now >= run[i].request.ExpiresAt()
  {
    AdmittedStep(run, i);
    var steps := CacheSteps(run);
    forall k | i < k < j && Accepted(steps, k)
      ensures steps[k].id != steps[i].id
    {
      AdmittedMeans(run, k);
      assert steps[k] == CacheStep(run[k]);
    }
    assert steps[j] == CacheStep(run[j]);
    RememberedExactly(steps, i, j);
    EntriesAreCache(run[..j]);
    assert steps[..j] == CacheSteps(run[..j]);
    CallsAreReaches(run, i, j, run[i].request.ExpiresAt());
  }

  lemma {:induction false} CallsAreReaches(run: seq<Attempt>, i: nat, j: nat, expiresAt: U64)
    requires j <= |run|
    ensures ExpiredBetween(CacheSteps(run), i, j, expiresAt)
            <==> exists k | i < k < j :: ReachesCache(run, k) && run[k].now >= expiresAt
  {
    var steps := CacheSteps(run);
    forall k | i < k < j
      ensures steps[k].Call? && steps[k].now >= expiresAt <==> ReachesCache(run, k) && run[k].now >= expiresAt
    {
      assert steps[k] == CacheStep(run[k]);
    }
  }

  /** Readings of a clock that never goes back do not help if arrivals overtake each other on their way to
      the cache: here the second copy read 4999, another request then read 5000 and reached the cache
      first, and the copy is admitted again. */
  lemma {:induction false} OvertakenRepetition(c: AppConfig)
    ensures var first := Request.Media(MediaRequest("a", Play, 0, 5000));
            var other := Request.Media(MediaRequest("b", Play, 1000, 6000));
            var run := [Attempt(first, c, true, 0, true), Attempt(other, c, true, 5000, true),
                        Attempt(first, c, true, 4999, true)];
            Executes(run, 0) && Executes(run, 2)
  {
    var first := Request.Media(MediaRequest("a", Play, 0, 5000));
    var other := Request.Media(MediaRequest("b", Play, 1000, 6000));
    var a0, a1, a2 := Attempt(first, c, true, 0, true), Attempt(other, c, true, 5000, true),
                      Attempt(first, c, true, 4999, true);
    var run := [a0, a1, a2];
    var r0, r1 := Reservation("a", 5000), Reservation("b", 6000);
    assert run[..1] == [a0] && run[..2] == [a0, a1] && [a0, a1][..1] == [a0] && [a0][..0] == [];
    assert EntriesAfter([], a0) == [r0];
    assert Entries([a0]) == [r0];
    assert Live([r0], 5000) == Live([r0][1..], 5000);
    assert EntriesAfter([r0], a1) == [r1];
    assert Entries([a0, a1]) == [r1];
  }

  /** Every remembered reservation was made by an admitted arrival, and dies within 10000 ms of its reading. */
  lemma {:induction false} ReservationsAreShortLived(run: seq<Attempt>, r: Reservation) returns (i: nat)
    requires r in Entries(run)
    ensures i < |run| && Admitted(run, i) && run[i].request.Id() == r.id
    ensures run[i].now < r.expiresAt <= run[i].now + 10000
  {
    EntriesAreCache(run);
    var steps := CacheSteps(run);
    assert steps[..|run|] == steps;
    CacheContents(steps, |run|, r);
    i :| i < |run| && Made(steps, i, r) && !ExpiredBetween(steps, i, |run|, r.expiresAt);
    AdmittedMeans(run, i);
    AdmittedStep(run, i);
  }
}

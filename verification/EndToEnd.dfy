/** The whole system: the PC's daemon, the board's voice service and its single HTTPS worker, and the
    messages between them, with power loss and restarts on either side.  A message that was sent may arrive
    at any later time, any number of times, or never. */
module EndToEnd {
  import opened Common
  import opened Clock
  import opened Domain
  import opened Config
  import opened Dispatch
  import opened ReplayCache
  import opened VoiceService
  import D = Daemon

  const U32_LIMIT := 0x1_0000_0000
  const MEDIA_QUEUE_LENGTH := 1

  /** A request the board built, with the table and index it was recognised as (history only). */
  datatype Recognised = Recognised(request: CustomActionRequest, index: nat, table: Snapshot)

  datatype Intent = MediaIntent | SyncIntent | CustomIntent(recognised: Recognised)

  /** The HTTPS worker: one job at a time.  While it waits for the voice worker it does nothing else. */
  datatype Https =
    | Resting
    | Fetching
    | Fetched(table: PublishedVoiceConfig)
    | Waiting(candidate: Snapshot)
    | Answered(candidate: Snapshot, success: bool)

  datatype Board = Off(stored: Store) | On(voice: Voice, https: Https, intents: seq<Intent>)

  /** A custom execution, with the clock reading of its arrival. */
  datatype CustomRun = CustomRun(request: CustomActionRequest, definition: Definition, now: U64)

  /** `requests` and `acks` are all the messages ever sent; `executed` all custom executions; `attempts` the
      arrivals since the daemon last started. */
  datatype System = System(
    daemon: D.State, board: Board, requests: set<Recognised>, acks: set<nat>,
    executed: seq<CustomRun>, attempts: seq<Attempt>)

  const INITIAL := System(D.INITIAL, Off(BLANK_STORE), {}, {}, [], [])

  datatype Event =
    | Pc(event: D.Event)
    | Deliver(recognised: Recognised, lockFree: bool, now: U64, slotFree: bool)
    | StartJob(dropped: bool)
    | ServeTable
    | TakeTable(received: bool)
    | FinishSync(sent: bool)
    | Detect(kind: EventKind, commandId: int, at: Tick)
    | TurnPending(turn: Turn)
    | TurnMessage(turn: Turn, id: string, issuedAt: U64, taken: bool)
    | PowerLoss
    | PowerLossInPending(turn: Turn, k: nat)
    | PowerLossInMessage(turn: Turn, k: nat)
    | PowerOn(prefsReady: bool, saved: StartAnswers, builtins: StartAnswers)

  predicate PcEventAllowed(s: System, e: D.Event) {
    D.Enabled(s.daemon, e) && D.Reads(e)
    && (e.BeginWrite? && e.op.Acknowledge? ==> e.op.revision in s.acks)
    && (e.Arrive? ==> e.request.Media?)
  }

  predicate ActivatesPending(v: Voice) {
    PendingDue(v)
  }

  predicate ActivatesMessage(v: Voice) {
    !PendingDue(v) && v.queue != [] && v.queue[0].Update? && !v.listening
  }

  predicate Enabled(s: System, e: Event) {
    match e
    case Pc(event) => PcEventAllowed(s, event)
    case Deliver(recognised, _, _, _) => recognised in s.requests
    case PowerOn(_, _, _) => s.board.Off?
    case _ => s.board.On? && EnabledOnBoard(s, s.board.voice, s.board.https, e)
  }

  predicate EnabledOnBoard(s: System, v: Voice, https: Https, e: Event)
    requires s.board.On?
  {
    match e
    case StartJob(_) => https.Resting? && s.board.intents != []
    case ServeTable => https.Fetching? && Serve(s.daemon.shared).Served?
    case TakeTable(_) => https.Fetched? || https.Fetching?
    case FinishSync(_) => https.Answered?
    case Detect(kind, commandId, _) =>
      v.recognizer.Running?
      && (kind.Command? ==> v.recognizer.commandMode && InTable(commandId, v.recognizer.table))
    case TurnPending(turn) => PendingDue(v) && HardwareSound(turn.hardware)
    case TurnMessage(turn, _, issuedAt, _) =>
      !PendingDue(v) && v.queue != [] && HardwareSound(turn.hardware) && issuedAt + REQUEST_LIFETIME_MS < U64_LIMIT
    case PowerLoss => true
    case PowerLossInPending(turn, k) =>
      ActivatesPending(v) && HardwareSound(turn.hardware) && k < |StoreTrail(v, v.pending.value, turn.hardware)|
    case PowerLossInMessage(turn, k) =>
      ActivatesMessage(v) && HardwareSound(turn.hardware) && k < |StoreTrail(v, v.queue[0].config, turn.hardware)|
    case _ => false
  }

  /** What the environment may do at any time: lose a reply, cut the power and restore it, start a job or drop it,
      deliver any request ever sent, again and at any reading, and restart the daemon. */
  lemma {:induction false} EnvironmentIsFree(s: System)
    ensures s.board.On? ==> Enabled(s, PowerLoss)
    ensures s.board.On? && (s.board.https.Fetching? || s.board.https.Fetched?) ==>
              forall received :: Enabled(s, TakeTable(received))
    ensures s.board.On? && s.board.https.Resting? && s.board.intents != [] ==>
              forall dropped :: Enabled(s, StartJob(dropped))
    ensures s.board.Off? ==>
              forall prefsReady, saved, builtins :: Enabled(s, PowerOn(prefsReady, saved, builtins))
    ensures forall q, lockFree, now, slotFree | q in s.requests :: Enabled(s, Deliver(q, lockFree, now, slotFree))
    ensures Enabled(s, Pc(D.Restart(true)))
  {
  }

  function Candidate(table: PublishedVoiceConfig): Snapshot {
    Snapshot(table.schema, table.revision, table.commands)
  }

  /** `fetch_voice_config` after the reply, then handing the candidate to the voice worker. */
  predicate Usable(table: PublishedVoiceConfig) {
    0 < table.revision < U32_LIMIT && SnapshotOk(Candidate(table))
  }

  /** The board never refuses a served table for its content: it takes every one whose revision fits its
      32-bit field. */
  lemma {:induction false} ServedIsUsable(shared: AppConfig)
    requires Valid(shared) && Serve(shared).Served?
    ensures Usable(Serve(shared).table) <==> Serve(shared).table.revision < U32_LIMIT
  {
  }

  function Queued(b: Board, i: Intent, taken: bool): Board
    requires b.On?
  {
    if taken && |b.intents| < MEDIA_QUEUE_LENGTH then b.(intents := b.intents + [i]) else b
  }

  /** The output asks for a custom action that the submission accepts. */
  predicate Submits(output: Output) {
    output.SubmitCustom? && IsActionId(output.actionId) && output.revision < U32_LIMIT
    && output.event.commandId >= CUSTOM_COMMAND_FIRST_ID
  }

  function Built(output: Output, id: string, issuedAt: U64): Recognised
    requires Submits(output) && issuedAt + REQUEST_LIFETIME_MS < U64_LIMIT
  {
    Recognised(
      CustomActionRequest(id, output.actionId, output.revision, issuedAt, issuedAt + REQUEST_LIFETIME_MS),
      output.event.commandId - CUSTOM_COMMAND_FIRST_ID, output.event.table)
  }

  /** What the voice worker's output does to the rest of the board; `taken` is whether a submission passes the
      checks of network and clock. */
  function Effect(b: Board, output: Output, id: string, issuedAt: U64, taken: bool): Board
    requires b.On? && issuedAt + REQUEST_LIFETIME_MS < U64_LIMIT
  {
    match output
    case Notified(config, success) => b.(https := Answered(config, success))
    case SubmitCustom(_, _, _) =>
      if Submits(output) then Queued(b, CustomIntent(Built(output, id, issuedAt)), taken) else b
    case SubmitMedia(_) => Queued(b, MediaIntent, taken)
    case RequestSync => Queued(b, SyncIntent, taken)
    case SendWake => b
    case Silent => b
  }

  function StartedJob(s: System, dropped: bool): System
    requires s.board.On? && s.board.intents != []
  {
    var intent, rest := s.board.intents[0], s.board.(intents := s.board.intents[1..]);
    match intent
    case MediaIntent => s.(board := rest)
    case SyncIntent => s.(board := if dropped then rest else rest.(https := Fetching))
    case CustomIntent(recognised) =>
      s.(board := rest, requests := if dropped then s.requests else s.requests + {recognised})
  }

  function TookTable(b: Board, received: bool): Board
    requires b.On?
  {
    if !received || !b.https.Fetched? || !Usable(b.https.table) || |b.voice.queue| >= EVENT_QUEUE_LENGTH
    then b.(https := Resting)
    else
      var candidate := Candidate(b.https.table);
      b.(voice := b.voice.(queue := b.voice.queue + [Update(candidate)]), https := Waiting(candidate))
  }

  /** The custom execution an arrival sets off, if any. */
  function Ran(d: D.State, a: Attempt): seq<CustomRun> {
    var admitted := Admit(d.entries, a);
    if admitted.Ok? && admitted.value.RunDefinition? && a.request.Custom? && a.slotFree
    then [CustomRun(a.request.custom, admitted.value.definition, a.now)] else []
  }

  function Delivered(s: System, request: Request, lockFree: bool, now: U64, slotFree: bool): System {
    var a := Attempt(request, s.daemon.dispatcher, lockFree, now, slotFree);
    s.(daemon := D.Apply(s.daemon, D.Arrive(request, lockFree, now, slotFree)),
       attempts := s.attempts + [a],
       executed := s.executed + Ran(s.daemon, a))
  }

  function Apply(s: System, e: Event): System
    requires Enabled(s, e)
  {
    match e
    case Pc(event) =>
      if event.Arrive? then Delivered(s, event.request, event.lockFree, event.now, event.slotFree)
      else s.(daemon := D.Apply(s.daemon, event), attempts := if event.Restart? then [] else s.attempts)
    case Deliver(recognised, lockFree, now, slotFree) =>
      Delivered(s, Request.Custom(recognised.request), lockFree, now, slotFree)
    case StartJob(dropped) => StartedJob(s, dropped)
    case ServeTable => s.(board := s.board.(https := Fetched(Serve(s.daemon.shared).table)))
    case TakeTable(received) => s.(board := TookTable(s.board, received))
    case FinishSync(sent) =>
      s.(board := s.board.(https := Resting),
         acks := if sent && s.board.https.success then s.acks + {s.board.https.candidate.revision} else s.acks)
    case Detect(kind, commandId, at) => s.(board := s.board.(voice := Detected(s.board.voice, kind, commandId, at)))
    case TurnPending(turn) =>
      var (voice, output) := RunPending(s.board.voice, turn);
      s.(board := Effect(s.board.(voice := voice), output, "", 0, true))
    case TurnMessage(turn, id, issuedAt, taken) =>
      var (voice, output) := Received(s.board.voice, turn);
      s.(board := Effect(s.board.(voice := voice), output, id, issuedAt, taken))
    case PowerLoss => s.(board := Off(s.board.voice.store))
    case PowerLossInPending(turn, k) =>
      s.(board := Off(StoreTrail(s.board.voice, s.board.voice.pending.value, turn.hardware)[k]))
    case PowerLossInMessage(turn, k) =>
      s.(board := Off(StoreTrail(s.board.voice, s.board.voice.queue[0].config, turn.hardware)[k]))
    case PowerOn(prefsReady, saved, builtins) =>
      var booted := Boot(s.board.stored, prefsReady, saved, builtins);
      if booted.Some? then s.(board := On(booted.value, Resting, [])) else s
  }

  // The invariant.

  type Meanings = map<nat, D.Meaning>

  /** A table on the board is the built-in one or exactly what was published under its revision. */
  predicate TableKnown(t: Snapshot, meanings: Meanings) {
    t == BUILTINS
    || (SnapshotOk(t) && t.revision in meanings && t.commands == meanings[t.revision].table.commands)
  }

  predicate StoreKnown(store: Store, meanings: Meanings) {
    (store.voice0.Some? ==> TableKnown(store.voice0.value, meanings))
    && (store.voice1.Some? ==> TableKnown(store.voice1.value, meanings))
  }

  predicate CandidateKnown(c: Snapshot, meanings: Meanings) {
    SnapshotOk(c) && TableKnown(c, meanings)
  }

  /** The recognised index names the request's action in the table that recognised it. */
  predicate RecognisedAs(q: Recognised) {
    q.index < |q.table.commands| && q.table.commands[q.index].actionId == q.request.actionId
  }

  /** The index a request was recognised at names its action in the published table of its revision. */
  predicate RequestNamed(q: Recognised, meanings: Meanings) {
    q.request.voiceRevision in meanings
    && q.index < |meanings[q.request.voiceRevision].table.commands|
    && meanings[q.request.voiceRevision].table.commands[q.index].actionId == q.request.actionId
    && q.index < |q.table.commands|
  }

  /** And in the table that recognised it. */
  predicate RequestKnown(q: Recognised, meanings: Meanings) {
    RequestNamed(q, meanings) && RecognisedAs(q)
  }

  /** Every request on its way: one that the recognising table does not bear out is under a stale revision. */
  predicate RequestSound(q: Recognised, d: D.State) {
    RequestNamed(q, d.meanings) && (RecognisedAs(q) || q.request.voiceRevision < D.Revision(d.shared))
  }

  /** The execution ran the definition that the recognised index had when its revision was published, and its
      clock reading was within the request's lifetime. */
  predicate ExecutionRight(x: CustomRun, requests: set<Recognised>, meanings: Meanings) {
    TimeCheck(x.request.issuedAt, x.request.expiresAt, x.now).Ok?
    && exists q | q in requests ::
      q.request == x.request && RequestKnown(q, meanings) && RanAsMeant(x, q, meanings)
  }

  predicate RanAsMeant(x: CustomRun, q: Recognised, meanings: Meanings)
    requires q.request == x.request && RequestKnown(q, meanings)
  {
    var meaning := meanings[x.request.voiceRevision];
    var action := FindAction(meaning.actions, meaning.table.commands[q.index].actionId);
    action.Some? && action.value.enabled && action.value.definition == x.definition
  }

  function StoreOf(b: Board): Store {
    if b.Off? then b.stored else b.voice.store
  }

  predicate NoUpdate(queue: seq<Message>) {
    forall k | 0 <= k < |queue| :: queue[k].Speech?
  }

  predicate OnlyUpdateAt(queue: seq<Message>, k: nat)
    requires k < |queue|
  {
    forall j | 0 <= j < |queue| && j != k :: queue[j].Speech?
  }

  predicate OneUpdate(queue: seq<Message>, c: Snapshot) {
    exists k | 0 <= k < |queue| :: OnlyUpdateAt(queue, k) && queue[k] == Update(c)
  }

  /** The hand-over between the two workers: an update is under way exactly while the HTTPS worker waits
      for it, once, and nowhere else. */
  predicate HandOver(v: Voice, https: Https) {
    if https.Waiting? then
      if v.pending.Some? then v.pending.value == https.candidate && NoUpdate(v.queue)
      else OneUpdate(v.queue, https.candidate)
    else v.pending.None? && NoUpdate(v.queue)
  }

  predicate HttpsKnown(https: Https, store: Store, d: D.State) {
    match https
    case Fetched(table) =>
      table.revision in d.meanings && table == d.meanings[table.revision].table
      && PersistedRevision(store) <= table.revision <= D.Revision(d.shared)
    case Waiting(c) =>
      CandidateKnown(c, d.meanings) && PersistedRevision(store) <= c.revision <= D.Revision(d.shared)
    case Answered(c, success) => success ==> c.revision <= PersistedRevision(store)
    case _ => true
  }

  predicate IntentSound(i: Intent, d: D.State) {
    i.CustomIntent? ==> RequestSound(i.recognised, d)
  }

  predicate BoardInv(b: Board, d: D.State) {
    StoreKnown(StoreOf(b), d.meanings)
    && PersistedRevision(StoreOf(b)) <= D.Revision(d.shared)
    && (b.On? ==>
          VoiceInv(b.voice) && TableKnown(b.voice.active, d.meanings)
          && (Disagrees(b.voice) ==> b.voice.active.revision < D.Revision(d.shared))
          && b.voice.active.revision <= PersistedRevision(b.voice.store)
          && HandOver(b.voice, b.https) && HttpsKnown(b.https, b.voice.store, d)
          && forall k | 0 <= k < |b.intents| :: IntentSound(b.intents[k], d))
  }

  predicate AckCovered(c: AppConfig, persisted: nat) {
    c.acknowledged.Some? ==> c.acknowledged.value <= persisted
  }

  predicate AcksCovered(d: D.State, persisted: nat) {
    AckCovered(d.disk, persisted) && AckCovered(d.dispatcher, persisted) && AckCovered(d.shared, persisted)
  }

  predicate AcksInv(s: System) {
    var persisted := PersistedRevision(StoreOf(s.board));
    (forall r | r in s.acks :: r <= persisted) && AcksCovered(s.daemon, persisted)
  }

  predicate RunsRight(runs: seq<CustomRun>, requests: set<Recognised>, meanings: Meanings) {
    forall k | 0 <= k < |runs| :: ExecutionRight(runs[k], requests, meanings)
  }

  predicate HistoryInv(s: System) {
    (forall q | q in s.requests :: RequestSound(q, s.daemon))
    && RunsRight(s.executed, s.requests, s.daemon.meanings)
    && s.daemon.entries == Entries(s.attempts)
  }

  predicate Inv(s: System) {
    D.Inv(s.daemon) && BoardInv(s.board, s.daemon) && AcksInv(s) && HistoryInv(s)
  }

  // Steps of the daemon.

  predicate MeaningsGrow(before: Meanings, after: Meanings) {
    forall r | r in before :: r in after && after[r] == before[r]
  }

  lemma {:induction false} DaemonStep(d: D.State, e: D.Event)
    requires D.Inv(d) && D.Enabled(d, e) && D.Reads(e)
    ensures D.Inv(D.Apply(d, e)) && MeaningsGrow(d.meanings, D.Apply(d, e).meanings)
    ensures D.Revision(d.shared) <= D.Revision(D.Apply(d, e).shared)
  {
    D.StepKeepsInv(d, e);
  }

  lemma {:induction false} BoardUnaffected(b: Board, d: D.State, e: D.Event)
    requires D.Inv(d) && D.Enabled(d, e) && D.Reads(e) && BoardInv(b, d)
    ensures BoardInv(b, D.Apply(d, e))
  {
    DaemonStep(d, e);
    var d' := D.Apply(d, e);
    if b.On? {
      forall k | 0 <= k < |b.intents|
        ensures IntentSound(b.intents[k], d')
      {
        assert IntentSound(b.intents[k], d);
      }
    }
  }

  lemma {:induction false} CandidateAck(shared: AppConfig, op: D.WriteOp)
    requires D.Candidate(shared, op).Some?
    ensures var c := D.Candidate(shared, op).value;
            c.acknowledged == if op.Acknowledge? then Some(op.revision) else shared.acknowledged
  {
  }

  lemma {:induction false} AcksFollow(d: D.State, e: D.Event, persisted: nat)
    requires D.Inv(d) && D.Enabled(d, e) && D.Reads(e) && AcksCovered(d, persisted)
    requires e.BeginWrite? && e.op.Acknowledge? ==> e.op.revision <= persisted
    ensures AcksCovered(D.Apply(d, e), persisted)
  {
    if e.BeginWrite? && D.Candidate(d.shared, e.op).Some? {
      CandidateAck(d.shared, e.op);
    }
  }

  lemma {:induction false} RunsRightPersist(runs: seq<CustomRun>, requests: set<Recognised>, more: set<Recognised>,
                                            before: Meanings, after: Meanings)
    requires RunsRight(runs, requests, before) && requests <= more && MeaningsGrow(before, after)
    ensures RunsRight(runs, more, after)
  {
    forall k | 0 <= k < |runs|
      ensures ExecutionRight(runs[k], more, after)
    {
      var x := runs[k];
      assert ExecutionRight(x, requests, before);
      var q :| q in requests && q.request == x.request && RequestKnown(q, before) && RanAsMeant(x, q, before);
      assert q in more && RequestKnown(q, after) && RanAsMeant(x, q, after);
    }
  }

  lemma {:induction false} PcKeepsInv(s: System, e: D.Event)
    requires Inv(s) && PcEventAllowed(s, e) && !e.Arrive?
    ensures Inv(Apply(s, Pc(e)))
  {
    var s' := Apply(s, Pc(e));
    DaemonStep(s.daemon, e);
    BoardUnaffected(s.board, s.daemon, e);
    AcksFollow(s.daemon, e, PersistedRevision(StoreOf(s.board)));
    RunsRightPersist(s.executed, s.requests, s.requests, s.daemon.meanings, s'.daemon.meanings);
  }

  /** Past the stale test, a request on its way is under the newest published revision, so it is known. */
  lemma {:induction false} ResolvedIsKnown(d: D.State, q: Recognised)
    requires D.Inv(d) && RequestSound(q, d) && Resolve(d.dispatcher, q.request).Ok?
    ensures RequestKnown(q, d.meanings)
  {
  }

  /** An arrival that the daemon executes is executed as published: the heart of the end-to-end claim. */
  lemma {:induction false} ArrivalRunsAsPublished(s: System, q: Recognised, lockFree: bool, now: U64, slotFree: bool)
    requires Inv(s) && q in s.requests
    ensures RunsRight(Ran(s.daemon, Attempt(Request.Custom(q.request), s.daemon.dispatcher, lockFree, now, slotFree)),
                      s.requests, s.daemon.meanings)
  {
    var a := Attempt(Request.Custom(q.request), s.daemon.dispatcher, lockFree, now, slotFree);
    if Ran(s.daemon, a) != [] {
      assert Admit(s.daemon.entries, a) == Screen(a);
      ResolvedIsKnown(s.daemon, q);
      D.ResolvesAsPublished(s.daemon, q.request);
      assert RanAsMeant(Ran(s.daemon, a)[0], q, s.daemon.meanings);
    }
  }

  lemma {:induction false} RunsJoin(a: seq<CustomRun>, b: seq<CustomRun>, requests: set<Recognised>, meanings: Meanings)
    requires RunsRight(a, requests, meanings) && RunsRight(b, requests, meanings)
    ensures RunsRight(a + b, requests, meanings)
  {
  }

  lemma {:induction false} AttemptsExtend(attempts: seq<Attempt>, a: Attempt)
    ensures Entries(attempts + [a]) == EntriesAfter(Entries(attempts), a)
  {
    assert (attempts + [a])[..|attempts|] == attempts;
  }

  lemma {:induction false} ArrivalHistory(s: System, request: Request, lockFree: bool, now: U64, slotFree: bool)
    requires Inv(s)
    requires request.Custom? ==> exists q | q in s.requests :: q.request == request.custom
    ensures HistoryInv(Delivered(s, request, lockFree, now, slotFree))
  {
    var a := Attempt(request, s.daemon.dispatcher, lockFree, now, slotFree);
    AttemptsExtend(s.attempts, a);
    assert RunsRight(Ran(s.daemon, a), s.requests, s.daemon.meanings) by {
      if request.Custom? {
        var q :| q in s.requests && q.request == request.custom;
        ArrivalRunsAsPublished(s, q, lockFree, now, slotFree);
      }
    }
    RunsJoin(s.executed, Ran(s.daemon, a), s.requests, s.daemon.meanings);
  }

  lemma {:induction false} ArrivalKeepsInv(s: System, request: Request, lockFree: bool, now: U64, slotFree: bool)
    requires Inv(s)
    requires request.Custom? ==> exists q | q in s.requests :: q.request == request.custom
    ensures Inv(Delivered(s, request, lockFree, now, slotFree))
  {
    var e := D.Arrive(request, lockFree, now, slotFree);
    DaemonStep(s.daemon, e);
    BoardUnaffected(s.board, s.daemon, e);
    AcksFollow(s.daemon, e, PersistedRevision(StoreOf(s.board)));
    ArrivalHistory(s, request, lockFree, now, slotFree);
  }

  // Steps of the board.

  lemma {:induction false} StagedKnown(v: Voice, candidate: Snapshot, h: Hardware, meanings: Meanings)
    requires StoreKnown(v.store, meanings) && CandidateKnown(candidate, meanings)
    requires HardwareSound(h) && PersistedRevision(v.store) <= candidate.revision
    ensures forall k | 0 <= k < |StoreTrail(v, candidate, h)| ::
              StoreKnown(StoreTrail(v, candidate, h)[k], meanings)
              && PersistedRevision(v.store) <= PersistedRevision(StoreTrail(v, candidate, h)[k]) <= candidate.revision
  {
    CrashRecovery(v, candidate, h);
  }

  lemma {:induction false} StoreAfterActivation(v: Voice, candidate: Snapshot, h: Hardware)
    ensures var trail := StoreTrail(v, candidate, h);
            Activated(v, candidate, h).store == if trail == [] then v.store else trail[|trail| - 1]
  {
  }

  lemma {:induction false} ActivationKeepsTables(v: Voice, candidate: Snapshot, h: Hardware, meanings: Meanings)
    requires HardwareSound(h) && StoreKnown(v.store, meanings) && TableKnown(v.active, meanings)
    requires CandidateKnown(candidate, meanings)
    requires v.active.revision <= PersistedRevision(v.store) <= candidate.revision
    ensures var after := Activated(v, candidate, h);
            StoreKnown(after.store, meanings) && TableKnown(after.active, meanings)
            && PersistedRevision(v.store) <= PersistedRevision(after.store) <= candidate.revision
            && after.active.revision <= PersistedRevision(after.store)
            && (Activates(v, candidate, h) ==> candidate.revision <= PersistedRevision(after.store))
  {
    StagedKnown(v, candidate, h, meanings);
    StoreAfterActivation(v, candidate, h);
    CrashRecovery(v, candidate, h);
  }

  lemma {:induction false} ActivationLosesNoUpdate(v: Voice, candidate: Snapshot, h: Hardware)
    requires HardwareSound(h) && NoUpdate(v.queue)
    ensures var after := Activated(v, candidate, h); NoUpdate(after.queue) && after.pending == v.pending
  {
    var after := Activated(v, candidate, h);
    assert after.queue == v.queue || after.queue == h.posted;
  }

  /** An activation keeps everything the board knows, and a success is persisted. */
  lemma {:induction false} ActivationKeepsBoard(v: Voice, candidate: Snapshot, h: Hardware, d: D.State)
    requires VoiceInv(v) && HardwareSound(h) && (Disagrees(v) ==> v.active.revision < D.Revision(d.shared))
    requires StoreKnown(v.store, d.meanings) && TableKnown(v.active, d.meanings)
    requires CandidateKnown(candidate, d.meanings)
    requires v.active.revision <= PersistedRevision(v.store) <= candidate.revision <= D.Revision(d.shared)
    requires NoUpdate(v.queue) && v.pending.None?
    ensures var after := Activated(v, candidate, h);
            VoiceInv(after) && StoreKnown(after.store, d.meanings)
            && (Disagrees(after) ==> after.active.revision < D.Revision(d.shared))
            && TableKnown(after.active, d.meanings)
            && after.active.revision <= PersistedRevision(after.store) <= D.Revision(d.shared)
            && PersistedRevision(v.store) <= PersistedRevision(after.store)
            && NoUpdate(after.queue) && after.pending.None?
            && (Activates(v, candidate, h) ==> candidate.revision <= PersistedRevision(after.store))
  {
    ActivationKeepsVoiceInv(v, candidate, h);
    if Disagrees(Activated(v, candidate, h)) {
      StrandedIsNewer(v, candidate, h);
    }
    ActivationKeepsTables(v, candidate, h, d.meanings);
    ActivationLosesNoUpdate(v, candidate, h);
  }

  lemma {:induction false} UpdateAppended(queue: seq<Message>, m: Message)
    ensures NoUpdate(queue) && m.Update? ==> OneUpdate(queue + [m], m.config)
    ensures NoUpdate(queue) && m.Speech? ==> NoUpdate(queue + [m])
    ensures forall c :: OneUpdate(queue, c) && m.Speech? ==> OneUpdate(queue + [m], c)
  {
    var longer := queue + [m];
    if NoUpdate(queue) && m.Update? {
      assert OnlyUpdateAt(longer, |queue|) && longer[|queue|] == m;
    }
    forall c | OneUpdate(queue, c) && m.Speech?
      ensures OneUpdate(longer, c)
    {
      var k :| 0 <= k < |queue| && OnlyUpdateAt(queue, k) && queue[k] == Update(c);
      assert OnlyUpdateAt(longer, k) && longer[k] == Update(c);
    }
  }

  lemma {:induction false} UpdateTaken(queue: seq<Message>, c: Snapshot)
    requires queue != []
    ensures NoUpdate(queue) ==> NoUpdate(queue[1..])
    ensures OneUpdate(queue, c) && queue[0].Update? ==> queue[0] == Update(c) && NoUpdate(queue[1..])
    ensures OneUpdate(queue, c) && queue[0].Speech? ==> OneUpdate(queue[1..], c)
  {
    if OneUpdate(queue, c) {
      var k :| 0 <= k < |queue| && OnlyUpdateAt(queue, k) && queue[k] == Update(c);
      if k > 0 {
        assert OnlyUpdateAt(queue[1..], k - 1) && queue[1..][k - 1] == Update(c);
      }
    }
  }

  /** What a step may do to the rest of the system: requests and acknowledgements grow by known ones. */
  predicate BoardStepSound(s: System, s': System) {
    s'.daemon == s.daemon && s'.executed == s.executed && s'.attempts == s.attempts
    && s.requests <= s'.requests
    && (forall q | q in s'.requests :: RequestSound(q, s.daemon))
    && (forall r | r in s'.acks :: r <= PersistedRevision(StoreOf(s'.board)))
    && PersistedRevision(StoreOf(s.board)) <= PersistedRevision(StoreOf(s'.board))
    && BoardInv(s'.board, s.daemon)
  }

  lemma {:induction false} BoardStepKeepsInv(s: System, s': System)
    requires Inv(s) && BoardStepSound(s, s')
    ensures Inv(s')
  {
    RunsRightPersist(s.executed, s.requests, s'.requests, s.daemon.meanings, s.daemon.meanings);
  }

  lemma {:induction false} BoardChanged(s: System, b: Board)
    requires Inv(s) && BoardInv(b, s.daemon)
    requires PersistedRevision(StoreOf(s.board)) <= PersistedRevision(StoreOf(b))
    ensures BoardStepSound(s, s.(board := b))
  {
  }

  lemma {:induction false} JobTaken(b: Board, d: D.State)
    requires b.On? && b.https.Resting? && b.intents != [] && BoardInv(b, d)
    ensures IntentSound(b.intents[0], d)
    ensures BoardInv(b.(intents := b.intents[1..]), d) && BoardInv(b.(intents := b.intents[1..], https := Fetching), d)
  {
  }

  lemma {:induction false} StartJobSound(s: System, dropped: bool)
    requires Inv(s) && Enabled(s, StartJob(dropped))
    ensures BoardStepSound(s, Apply(s, StartJob(dropped)))
  {
    var b := s.board;
    JobTaken(b, s.daemon);
    BoardChanged(s, b.(intents := b.intents[1..]));
    BoardChanged(s, b.(intents := b.intents[1..], https := Fetching));
  }

  lemma {:induction false} ServeTableSound(s: System)
    requires Inv(s) && Enabled(s, ServeTable)
    ensures BoardStepSound(s, Apply(s, ServeTable))
  {
    assert D.Known(s.daemon.shared, s.daemon.meanings);
  }

  lemma {:induction false} UpdateQueued(v: Voice, candidate: Snapshot)
    requires VoiceInv(v) && NoUpdate(v.queue)
    ensures var after := v.(queue := v.queue + [Update(candidate)]);
            VoiceInv(after) && OneUpdate(after.queue, candidate)
  {
    UpdateAppended(v.queue, Update(candidate));
    var queue := v.queue + [Update(candidate)];
    assert forall k | 0 <= k < |v.queue| :: queue[k] == v.queue[k] && EventOk(v.queue[k], v);
  }

  lemma {:induction false} TableTaken(b: Board, d: D.State, received: bool)
    requires b.On? && (b.https.Fetched? || b.https.Fetching?) && BoardInv(b, d)
    ensures BoardInv(TookTable(b, received), d) && StoreOf(TookTable(b, received)) == StoreOf(b)
  {
    if TookTable(b, received).https.Waiting? {
      UpdateQueued(b.voice, Candidate(b.https.table));
    }
  }

  lemma {:induction false} TakeTableSound(s: System, received: bool)
    requires Inv(s) && Enabled(s, TakeTable(received))
    ensures BoardStepSound(s, Apply(s, TakeTable(received)))
  {
    TableTaken(s.board, s.daemon, received);
    BoardChanged(s, TookTable(s.board, received));
  }

  lemma {:induction false} FinishSyncSound(s: System, sent: bool)
    requires Inv(s) && Enabled(s, FinishSync(sent))
    ensures BoardStepSound(s, Apply(s, FinishSync(sent)))
  {
    assert HttpsKnown(s.board.https, s.board.voice.store, s.daemon);
  }

  lemma {:induction false} DetectBoard(b: Board, d: D.State, kind: EventKind, commandId: int, at: Tick)
    requires b.On? && BoardInv(b, d) && b.voice.recognizer.Running?
    requires kind.Command? ==> InTable(commandId, b.voice.recognizer.table)
    ensures BoardInv(b.(voice := Detected(b.voice, kind, commandId, at)), d)
  {
    var v := b.voice;
    DetectionKeepsVoiceInv(v, kind, commandId, at);
    UpdateAppended(v.queue, Speech(SpeechEvent(kind, commandId, at, v.callbackRevision, v.recognizer.table)));
  }

  lemma {:induction false} DetectSound(s: System, kind: EventKind, commandId: int, at: Tick)
    requires Inv(s) && Enabled(s, Detect(kind, commandId, at))
    ensures BoardStepSound(s, Apply(s, Detect(kind, commandId, at)))
  {
    DetectBoard(s.board, s.daemon, kind, commandId, at);
    BoardChanged(s, s.board.(voice := Detected(s.board.voice, kind, commandId, at)));
  }

  /** The board after an activation that the worker reached, and its answer. */
  function AfterActivation(b: Board, v: Voice, candidate: Snapshot, h: Hardware): Board
    requires b.On?
  {
    On(Activated(v, candidate, h), Answered(candidate, Activates(v, candidate, h)), b.intents)
  }

  /** An activation reached by the worker: the candidate is the one the HTTPS worker waits for, it is known,
      and nothing else is under way. */
  lemma {:induction false} ActivationTurnSound(b: Board, d: D.State, v: Voice, candidate: Snapshot, h: Hardware)
    requires b.On? && BoardInv(b, d) && b.https == Waiting(candidate) && HardwareSound(h)
    requires v == b.voice.(queue := v.queue, pending := None) && NoUpdate(v.queue) && VoiceInv(v)
    ensures BoardInv(AfterActivation(b, v, candidate, h), d)
    ensures PersistedRevision(v.store) <= PersistedRevision(AfterActivation(b, v, candidate, h).voice.store)
  {
    ActivationKeepsBoard(v, candidate, h, d);
  }

  lemma {:induction false} PendingReady(b: Board, d: D.State)
    requires b.On? && BoardInv(b, d) && b.voice.pending.Some?
    ensures b.https == Waiting(b.voice.pending.value) && NoUpdate(b.voice.queue)
    ensures VoiceInv(b.voice.(pending := None))
  {
    var v, rest := b.voice, b.voice.(pending := None);
    assert forall k | 0 <= k < |v.queue| :: EventOk(v.queue[k], v) ==> EventOk(v.queue[k], rest);
  }

  lemma {:induction false} TurnPendingSound(s: System, turn: Turn)
    requires Inv(s) && Enabled(s, TurnPending(turn))
    ensures BoardStepSound(s, Apply(s, TurnPending(turn)))
  {
    var v := s.board.voice;
    var rest, candidate := v.(pending := None), v.pending.value;
    PendingReady(s.board, s.daemon);
    ActivationTurnSound(s.board, s.daemon, rest, candidate, turn.hardware);
    BoardChanged(s, AfterActivation(s.board, rest, candidate, turn.hardware));
  }

  /** The queue without the update at its head: what an activation or a deferral starts from. */
  lemma {:induction false} UpdateAtHead(b: Board, d: D.State)
    requires b.On? && BoardInv(b, d) && b.voice.queue != [] && b.voice.queue[0].Update?
    ensures b.https == Waiting(b.voice.queue[0].config) && b.voice.pending.None?
    ensures NoUpdate(b.voice.queue[1..])
    ensures VoiceInv(b.voice.(queue := b.voice.queue[1..]))
  {
    var v := b.voice;
    assert b.https.Waiting? && v.pending.None?;
    UpdateTaken(v.queue, b.https.candidate);
    var rest := v.queue[1..];
    assert forall k | 0 <= k < |rest| :: rest[k] == v.queue[k + 1] && EventOk(v.queue[k + 1], v);
  }

  lemma {:induction false} UpdateDeferred(b: Board, d: D.State)
    requires b.On? && BoardInv(b, d) && b.voice.queue != [] && b.voice.queue[0].Update?
    ensures BoardInv(b.(voice := b.voice.(queue := b.voice.queue[1..], pending := Some(b.voice.queue[0].config))), d)
  {
    UpdateAtHead(b, d);
  }

  lemma {:induction false} TurnUpdateSound(s: System, turn: Turn, id: string, issuedAt: U64, taken: bool)
    requires Inv(s) && Enabled(s, TurnMessage(turn, id, issuedAt, taken)) && s.board.voice.queue[0].Update?
    ensures BoardStepSound(s, Apply(s, TurnMessage(turn, id, issuedAt, taken)))
  {
    var v := s.board.voice;
    UpdateAtHead(s.board, s.daemon);
    var rest := v.(queue := v.queue[1..]);
    if v.listening {
      UpdateDeferred(s.board, s.daemon);
      BoardChanged(s, s.board.(voice := rest.(pending := Some(v.queue[0].config))));
    } else {
      ActivationTurnSound(s.board, s.daemon, rest, v.queue[0].config, turn.hardware);
      BoardChanged(s, AfterActivation(s.board, rest, v.queue[0].config, turn.hardware));
    }
  }

  lemma {:induction false} QueuedSound(b: Board, i: Intent, d: D.State, taken: bool)
    requires b.On? && BoardInv(b, d) && IntentSound(i, d)
    ensures BoardInv(Queued(b, i, taken), d)
  {
  }

  /** What a turn that takes a speech event leaves alone. */
  lemma {:induction false} SpeechTurnLeaves(v: Voice, turn: Turn)
    requires v.queue != [] && v.queue[0].Speech?
    ensures var after := Received(v, turn).0;
            after.store == v.store && after.active == v.active && after.pending == v.pending
            && after.queue == v.queue[1..] && (Disagrees(after) <==> Disagrees(v))
  {
  }

  lemma {:induction false} SpeechKeepsHandOver(v: Voice, turn: Turn, https: Https)
    requires v.queue != [] && v.queue[0].Speech? && HandOver(v, https)
    ensures HandOver(Received(v, turn).0, https)
  {
    SpeechTurnLeaves(v, turn);
    UpdateTaken(v.queue, if https.Waiting? then https.candidate else BUILTINS);
  }

  lemma {:induction false} SpeechTurnBoard(b: Board, d: D.State, turn: Turn)
    requires b.On? && BoardInv(b, d) && b.voice.queue != [] && b.voice.queue[0].Speech?
    ensures BoardInv(b.(voice := Received(b.voice, turn).0), d)
    ensures Received(b.voice, turn).0.store == b.voice.store
  {
    SpeechTurnKeepsVoiceInv(b.voice, turn);
    SpeechTurnLeaves(b.voice, turn);
    SpeechKeepsHandOver(b.voice, turn, b.https);
  }

  /** A submitted command carries an index of the loaded table, which recognised it, and a revision under which
      the published table names the submitted action at that index; the loaded table names it too exactly
      when it agrees with the active table there. */
  lemma {:induction false} SubmissionSound(v: Voice, turn: Turn, d: D.State, id: string, issuedAt: U64)
    requires VoiceInv(v) && TableKnown(v.active, d.meanings)
    requires Disagrees(v) ==> v.active.revision < D.Revision(d.shared)
    requires v.queue != [] && v.queue[0].Speech? && issuedAt + REQUEST_LIFETIME_MS < U64_LIMIT
    requires Submits(Received(v, turn).1)
    ensures var q := Built(Received(v, turn).1, id, issuedAt);
            RequestNamed(q, d.meanings) && RequestSound(q, d)
            && v.recognizer.Running? && q.table == v.recognizer.table && q.index < |v.active.commands|
            && q.request.voiceRevision == v.active.revision
            && (RecognisedAs(q) <==> q.table.commands[q.index].actionId == v.active.commands[q.index].actionId)
            && (RecognisedAs(q) || Disagrees(v))
  {
    SpeechTurnKeepsVoiceInv(v, turn);
  }

  lemma {:induction false} EffectKeepsBoard(b: Board, d: D.State, output: Output, id: string, issuedAt: U64,
                                            taken: bool)
    requires b.On? && BoardInv(b, d) && !output.Notified? && issuedAt + REQUEST_LIFETIME_MS < U64_LIMIT
    requires Submits(output) ==> RequestSound(Built(output, id, issuedAt), d)
    ensures BoardInv(Effect(b, output, id, issuedAt, taken), d)
    ensures StoreOf(Effect(b, output, id, issuedAt, taken)) == StoreOf(b)
  {
    if Submits(output) {
      QueuedSound(b, CustomIntent(Built(output, id, issuedAt)), d, taken);
    } else if output.SubmitMedia? {
      QueuedSound(b, MediaIntent, d, taken);
    } else if output.RequestSync? {
      QueuedSound(b, SyncIntent, d, taken);
    }
  }

  lemma {:induction false} SpeechTurnEffect(b: Board, d: D.State, turn: Turn, id: string, issuedAt: U64, taken: bool)
    requires b.On? && BoardInv(b, d) && b.voice.queue != [] && b.voice.queue[0].Speech?
    requires issuedAt + REQUEST_LIFETIME_MS < U64_LIMIT
    ensures var (after, output) := Received(b.voice, turn);
            var b' := Effect(b.(voice := after), output, id, issuedAt, taken);
            BoardInv(b', d) && StoreOf(b') == StoreOf(b)
  {
    var (after, output) := Received(b.voice, turn);
    SpeechTurnBoard(b, d, turn);
    if Submits(output) {
      SubmissionSound(b.voice, turn, d, id, issuedAt);
    }
    EffectKeepsBoard(b.(voice := after), d, output, id, issuedAt, taken);
  }

  lemma {:induction false} TurnSpeechSound(s: System, turn: Turn, id: string, issuedAt: U64, taken: bool)
    requires Inv(s) && Enabled(s, TurnMessage(turn, id, issuedAt, taken)) && s.board.voice.queue[0].Speech?
    ensures BoardStepSound(s, Apply(s, TurnMessage(turn, id, issuedAt, taken)))
  {
    var (after, output) := Received(s.board.voice, turn);
    SpeechTurnEffect(s.board, s.daemon, turn, id, issuedAt, taken);
    BoardChanged(s, Effect(s.board.(voice := after), output, id, issuedAt, taken));
  }

  lemma {:induction false} PowerLossInTrail(b: Board, d: D.State, candidate: Snapshot, h: Hardware, v: Voice, k: nat)
    requires b.On? && BoardInv(b, d) && b.https == Waiting(candidate) && HardwareSound(h)
    requires v.store == b.voice.store && k < |StoreTrail(v, candidate, h)|
    ensures BoardInv(Off(StoreTrail(v, candidate, h)[k]), d)
    ensures PersistedRevision(b.voice.store) <= PersistedRevision(StoreTrail(v, candidate, h)[k])
  {
    StagedKnown(v, candidate, h, d.meanings);
  }

  lemma {:induction false} PowerLossSound(s: System, e: Event)
    requires Inv(s) && Enabled(s, e) && (e.PowerLoss? || e.PowerLossInPending? || e.PowerLossInMessage?)
    ensures BoardStepSound(s, Apply(s, e))
  {
    var v := s.board.voice;
    match e
    case PowerLoss =>
    case PowerLossInPending(turn, k) =>
      PowerLossInTrail(s.board, s.daemon, v.pending.value, turn.hardware, v, k);
    case PowerLossInMessage(turn, k) =>
      UpdateAtHead(s.board, s.daemon);
      PowerLossInTrail(s.board, s.daemon, v.queue[0].config, turn.hardware, v, k);
    BoardChanged(s, Apply(s, e).board);
  }

  lemma {:induction false} PowerOnSound(s: System, prefsReady: bool, saved: StartAnswers, builtins: StartAnswers)
    requires Inv(s) && Enabled(s, PowerOn(prefsReady, saved, builtins))
    ensures BoardStepSound(s, Apply(s, PowerOn(prefsReady, saved, builtins)))
  {
    if Boot(s.board.stored, prefsReady, saved, builtins).Some? {
      BootVoiceInv(s.board.stored, prefsReady, saved, builtins);
    }
  }

  lemma {:induction false} WorkerEventSound(s: System, e: Event)
    requires Inv(s) && Enabled(s, e) && (e.TurnPending? || e.TurnMessage?)
    ensures BoardStepSound(s, Apply(s, e))
  {
    if e.TurnPending? {
      TurnPendingSound(s, e.turn);
    } else if s.board.voice.queue[0].Update? {
      TurnUpdateSound(s, e.turn, e.id, e.issuedAt, e.taken);
    } else {
      TurnSpeechSound(s, e.turn, e.id, e.issuedAt, e.taken);
    }
  }

  lemma {:induction false} HttpsEventSound(s: System, e: Event)
    requires Inv(s) && Enabled(s, e) && (e.StartJob? || e.ServeTable? || e.TakeTable? || e.FinishSync?)
    ensures BoardStepSound(s, Apply(s, e))
  {
    if e.StartJob? {
      StartJobSound(s, e.dropped);
    } else if e.ServeTable? {
      ServeTableSound(s);
    } else if e.TakeTable? {
      TakeTableSound(s, e.received);
    } else {
      FinishSyncSound(s, e.sent);
    }
  }

  predicate IsBoardEvent(e: Event) {
    !e.Pc? && !e.Deliver?
  }

  lemma {:induction false} BoardEventSound(s: System, e: Event)
    requires Inv(s) && Enabled(s, e) && IsBoardEvent(e)
    ensures BoardStepSound(s, Apply(s, e))
  {
    if e.TurnPending? || e.TurnMessage? {
      WorkerEventSound(s, e);
    } else if e.StartJob? || e.ServeTable? || e.TakeTable? || e.FinishSync? {
      HttpsEventSound(s, e);
    } else if e.Detect? {
      DetectSound(s, e.kind, e.commandId, e.at);
    } else if e.PowerOn? {
      PowerOnSound(s, e.prefsReady, e.saved, e.builtins);
    } else {
      PowerLossSound(s, e);
    }
  }

  lemma {:induction false} BoardEventKeepsInv(s: System, e: Event)
    requires Inv(s) && Enabled(s, e) && IsBoardEvent(e)
    ensures Inv(Apply(s, e))
  {
    BoardEventSound(s, e);
    BoardStepKeepsInv(s, Apply(s, e));
  }

  lemma {:induction false} StepKeepsInv(s: System, e: Event)
    requires Inv(s) && Enabled(s, e)
    ensures Inv(Apply(s, e))
  {
    if IsBoardEvent(e) {
      BoardEventKeepsInv(s, e);
    } else if e.Deliver? {
      ArrivalKeepsInv(s, Request.Custom(e.recognised.request), e.lockFree, e.now, e.slotFree);
    } else if e.event.Arrive? {
      ArrivalKeepsInv(s, e.event.request, e.event.lockFree, e.event.now, e.event.slotFree);
    } else {
      PcKeepsInv(s, e.event);
    }
  }

  // Runs.

  predicate IsRun(states: seq<System>, events: seq<Event>) {
    |states| == |events| + 1 && states[0] == INITIAL
    && forall i | 0 <= i < |events| :: Enabled(states[i], events[i]) && states[i + 1] == Apply(states[i], events[i])
  }

  lemma {:induction false} RunKeepsInv(states: seq<System>, events: seq<Event>, n: nat)
    requires IsRun(states, events) && n < |states|
    ensures Inv(states[n])
  {
    if n > 0 {
      RunKeepsInv(states, events, n - 1);
      StepKeepsInv(states[n - 1], events[n - 1]);
    } else {
      InitialInv();
    }
  }

  lemma {:induction false} InitialInv()
    ensures Inv(INITIAL)
  {
    assert ActionsValid([]);
  }

  /** In every run, each custom execution on the PC was asked for by a request the board built from an index
      recognised under the request's revision, and ran exactly the definition that this index named when
      the revision was published. */
  lemma {:induction false} ExecutedAsPublished(states: seq<System>, events: seq<Event>, n: nat, k: nat)
    returns (q: Recognised)
    requires IsRun(states, events) && n < |states| && k < |states[n].executed|
    ensures q in states[n].requests && q.request == states[n].executed[k].request
    ensures q.request.voiceRevision in states[n].daemon.meanings
    ensures var meaning := states[n].daemon.meanings[q.request.voiceRevision];
            q.index < |meaning.table.commands|
            && meaning.table.commands == EnabledCommands(meaning.actions)
            && q.index < |q.table.commands|
            && q.table.commands[q.index].actionId == meaning.table.commands[q.index].actionId == q.request.actionId
            && var action := FindAction(meaning.actions, q.request.actionId);
               action.Some? && action.value.enabled && action.value.definition == states[n].executed[k].definition
  {
    RunKeepsInv(states, events, n);
    var s := states[n];
    var x := s.executed[k];
    assert ExecutionRight(x, s.requests, s.daemon.meanings);
    q :| q in s.requests && q.request == x.request && RequestKnown(q, s.daemon.meanings)
         && RanAsMeant(x, q, s.daemon.meanings);
  }

  /** In every run, also from a stranded table: a request whose recognised index did not name its action in
      the table that recognised it is refused as stale whenever it arrives. */
  lemma {:induction false} MisrecognisedIsRefused(states: seq<System>, events: seq<Event>, n: nat, q: Recognised)
    requires IsRun(states, events) && n < |states| && q in states[n].requests && !RecognisedAs(q)
    ensures Resolve(states[n].daemon.dispatcher, q.request) == Err(StaleVoiceConfig)
    ensures forall lockFree, now, slotFree ::
              Ran(states[n].daemon,
                  Attempt(Request.Custom(q.request), states[n].daemon.dispatcher, lockFree, now, slotFree)) == []
  {
    RunKeepsInv(states, events, n);
    assert RequestSound(q, states[n].daemon);
  }

  /** In every run, two arrivals of one request since the daemon last started are both admitted only if an
      arrival with a later reading reached the replay cache between them. */
  lemma {:induction false} AdmittedTwiceOvertaken(states: seq<System>, events: seq<Event>, n: nat, i: nat, j: nat)
    requires IsRun(states, events) && n < |states| && i < j < |states[n].attempts|
    requires var attempts := states[n].attempts;
             attempts[i].request == attempts[j].request && Admitted(attempts, i) && Admitted(attempts, j)
    ensures exists k | i < k < j :: states[n].attempts[k].now > states[n].attempts[j].now
    ensures states[n].daemon.entries == Entries(states[n].attempts)
  {
    RunKeepsInv(states, events, n);
    Dispatch.AdmittedTwiceOvertaken(states[n].attempts, i, j);
  }

  /** The arrival that an event is, if any. */
  function ArrivalAt(s: System, e: Event): Option<Attempt> {
    match e
    case Deliver(q, lockFree, now, slotFree) =>
      Some(Attempt(Request.Custom(q.request), s.daemon.dispatcher, lockFree, now, slotFree))
    case Pc(Arrive(request, lockFree, now, slotFree)) =>
      Some(Attempt(request, s.daemon.dispatcher, lockFree, now, slotFree))
    case _ => None
  }

  predicate AdmitsAt(s: System, e: Event) {
    ArrivalAt(s, e).Some? && Admit(s.daemon.entries, ArrivalAt(s, e).value).Ok?
  }

  predicate RestartsDaemon(e: Event) {
    e.Pc? && e.event.Restart?
  }

  predicate NoRestart(events: seq<Event>, m: nat, n: nat)
    requires n <= |events|
  {
    forall k | m <= k < n :: !RestartsDaemon(events[k])
  }

  lemma {:induction false} AttemptsStep(s: System, e: Event)
    requires Enabled(s, e) && !RestartsDaemon(e)
    ensures Apply(s, e).attempts
            == s.attempts + NewAttempt(s, e)
  {
  }

  function NewAttempt(s: System, e: Event): seq<Attempt> {
    if ArrivalAt(s, e).Some? then [ArrivalAt(s, e).value] else []
  }

  lemma {:induction false} AttemptsInRun(states: seq<System>, events: seq<Event>, k: nat)
    requires IsRun(states, events) && k < |events| && !RestartsDaemon(events[k])
    ensures states[k + 1].attempts == states[k].attempts + NewAttempt(states[k], events[k])
  {
    assert Enabled(states[k], events[k]) && states[k + 1] == Apply(states[k], events[k]);
    AttemptsStep(states[k], events[k]);
  }

  function Logs(states: seq<System>): seq<seq<Attempt>> {
    seq(|states|, k requires 0 <= k < |states| => states[k].attempts)
  }

  lemma {:induction false} LogsGrow(states: seq<System>, events: seq<Event>, m: nat, n: nat)
    requires IsRun(states, events) && m <= n <= |events| && NoRestart(events, m, n)
    ensures Grows(Logs(states), m, n) && states[m].attempts <= states[n].attempts
  {
    forall k | m <= k < n
      ensures Logs(states)[k + 1] == Logs(states)[k] + NewAttempt(states[k], events[k])
    {
      AttemptsInRun(states, events, k);
    }
    LogKeeps(Logs(states), m, n);
  }

  /** Without a restart, each arrival in the log is the arrival of one event. */
  lemma {:induction false} AttemptOrigin(states: seq<System>, events: seq<Event>, m: nat, n: nat, i: nat)
    returns (k: nat)
    requires IsRun(states, events) && m <= n <= |events| && NoRestart(events, m, n)
    requires |states[m].attempts| <= i < |states[n].attempts|
    ensures m <= k < n && |states[k].attempts| == i
    ensures NewAttempt(states[k], events[k]) == [states[n].attempts[i]]
  {
    LogsGrow(states, events, m, n);
    k := EntryOrigin(Logs(states), m, n, i);
    AttemptsInRun(states, events, k);
    assert states[k + 1].attempts[i] == states[n].attempts[i];
  }

  lemma {:induction false} AdmittedInAttempts(states: seq<System>, events: seq<Event>, m: nat, attempts: seq<Attempt>)
    requires IsRun(states, events) && m < |events| && AdmitsAt(states[m], events[m])
    requires states[m].attempts + [ArrivalAt(states[m], events[m]).value] <= attempts
    ensures Admitted(attempts, |states[m].attempts|)
    ensures attempts[|states[m].attempts|] == ArrivalAt(states[m], events[m]).value
  {
    RunKeepsInv(states, events, m);
    assert attempts[..|states[m].attempts|] == states[m].attempts;
  }

  /** In every run, one request is admitted at two events only if between them the daemon restarts, or an
      arrival with a later reading than the second reaches the cache. */
  lemma {:induction false} RepeatedOnlyIf(states: seq<System>, events: seq<Event>, m: nat, n: nat)
    requires IsRun(states, events) && m < n < |events|
    requires AdmitsAt(states[m], events[m]) && AdmitsAt(states[n], events[n])
    requires ArrivalAt(states[m], events[m]).value.request == ArrivalAt(states[n], events[n]).value.request
    ensures exists k | m < k < n ::
              RestartsDaemon(events[k])
              || (ArrivalAt(states[k], events[k]).Some?
                  && ArrivalAt(states[k], events[k]).value.now > ArrivalAt(states[n], events[n]).value.now)
  {
    if NoRestart(events, m + 1, n) {
      var k := OvertakingArrival(states, events, m, n);
    } else {
      var k :| m + 1 <= k < n && RestartsDaemon(events[k]);
    }
  }

  lemma {:induction false} OvertakingArrival(states: seq<System>, events: seq<Event>, m: nat, n: nat) returns (k: nat)
    requires IsRun(states, events) && m < n < |events| && NoRestart(events, m + 1, n)
    requires AdmitsAt(states[m], events[m]) && AdmitsAt(states[n], events[n])
    requires ArrivalAt(states[m], events[m]).value.request == ArrivalAt(states[n], events[n]).value.request
    ensures m < k < n && ArrivalAt(states[k], events[k]).Some?
            && ArrivalAt(states[k], events[k]).value.now > ArrivalAt(states[n], events[n]).value.now
  {
    var first, second := ArrivalAt(states[m], events[m]).value, ArrivalAt(states[n], events[n]).value;
    var attempts := states[n].attempts + [second];
    AttemptsInRun(states, events, m);
    LogsGrow(states, events, m + 1, n);
    assert states[m].attempts + [first] <= attempts;
    var i, j := |states[m].attempts|, |states[n].attempts|;
    AdmittedInAttempts(states, events, m, attempts);
    AdmittedInAttempts(states, events, n, attempts);
    Dispatch.AdmittedTwiceOvertaken(attempts, i, j);
    var l :| i < l < j && attempts[l].now > attempts[j].now;
    k := AttemptOrigin(states, events, m + 1, n, l);
  }

  /** In every run, across any restarts of the daemon, all executions of one request carry readings less than
      10000 ms apart. */
  lemma {:induction false} ExecutedWithin(states: seq<System>, events: seq<Event>, n: nat, i: nat, j: nat)
    requires IsRun(states, events) && n < |states| && i < |states[n].executed| && j < |states[n].executed|
    requires states[n].executed[i].request == states[n].executed[j].request
    ensures states[n].executed[i].now < states[n].executed[j].now + 10000
  {
    RunKeepsInv(states, events, n);
    var s := states[n];
    assert ExecutionRight(s.executed[i], s.requests, s.daemon.meanings);
    assert ExecutionRight(s.executed[j], s.requests, s.daemon.meanings);
  }

  /** In every run the refusals for an unknown and for a disabled action never happen. */
  lemma {:induction false} NeverUnknownNorDisabled(states: seq<System>, events: seq<Event>, n: nat,
                                                   q: CustomActionRequest)
    requires IsRun(states, events) && n < |states|
    ensures Resolve(states[n].daemon.dispatcher, q) != Err(UnknownAction)
    ensures Resolve(states[n].daemon.dispatcher, q) != Err(DisabledAction)
  {
    RunKeepsInv(states, events, n);
    D.ResolvesAsPublished(states[n].daemon, q);
  }

  lemma {:induction false} PersistedStep(s: System, e: Event)
    requires Inv(s) && Enabled(s, e)
    ensures PersistedRevision(StoreOf(s.board)) <= PersistedRevision(StoreOf(Apply(s, e).board))
  {
    if IsBoardEvent(e) {
      BoardEventSound(s, e);
    }
  }

  lemma {:induction false} PersistedStepInRun(states: seq<System>, events: seq<Event>, k: nat)
    requires IsRun(states, events) && 0 < k < |states|
    ensures PersistedRevision(StoreOf(states[k - 1].board)) <= PersistedRevision(StoreOf(states[k].board))
  {
    RunKeepsInv(states, events, k - 1);
    PersistedStep(states[k - 1], events[k - 1]);
  }

  /** In every run, across power loss at any point of an activation, the revision the board would boot with
      never decreases. */
  lemma {:induction false} PersistedNeverDecreases(states: seq<System>, events: seq<Event>, i: nat, j: nat)
    requires IsRun(states, events) && i <= j < |states|
    ensures PersistedRevision(StoreOf(states[i].board)) <= PersistedRevision(StoreOf(states[j].board))
  {
    var persisted: seq<nat> :=
      seq(|states|, k requires 0 <= k < |states| => PersistedRevision(StoreOf(states[k].board)));
    forall k | 0 < k < |persisted|
      ensures persisted[k - 1] <= persisted[k]
    {
      PersistedStepInRun(states, events, k);
    }
    Ascending(persisted, i, j);
  }

  /** In every run, a revision that any copy of the daemon's configuration holds as acknowledged is covered
      by what the board would boot with, and that is a table the daemon published. */
  lemma {:induction false} AcknowledgedIsPersisted(states: seq<System>, events: seq<Event>, n: nat)
    requires IsRun(states, events) && n < |states|
    ensures var persisted := PersistedRevision(StoreOf(states[n].board));
            AcksCovered(states[n].daemon, persisted)
            && persisted <= D.Revision(states[n].daemon.shared)
            && (Bootable(StoreOf(states[n].board)).Some? ==>
                  persisted in states[n].daemon.meanings
                  && Bootable(StoreOf(states[n].board)).value.commands
                     == states[n].daemon.meanings[persisted].table.commands)
  {
    RunKeepsInv(states, events, n);
  }

  /** The activation that an event runs, if any. */
  function ActivationBy(s: System, e: Event): Option<(Voice, Snapshot, Hardware)> {
    if s.board.Off? then None
    else
      var v := s.board.voice;
      match e
      case TurnPending(turn) =>
        if ActivatesPending(v) then Some((v.(pending := None), v.pending.value, turn.hardware)) else None
      case TurnMessage(turn, _, _, _) =>
        if ActivatesMessage(v) then Some((v.(queue := v.queue[1..]), v.queue[0].config, turn.hardware)) else None
      case _ => None
  }

  /** The event replaces the loaded table: an activation that stops the recogniser, or a power cycle. */
  predicate ReloadsAt(s: System, e: Event) {
    match ActivationBy(s, e)
    case Some((v, candidate, h)) => Reloads(v, candidate, h)
    case None => e.PowerLoss? || e.PowerLossInPending? || e.PowerLossInMessage? || e.PowerOn?
  }

  /** The event is an activation whose answers strand a candidate with other actions than the active table. */
  predicate StrandsAt(s: System, e: Event) {
    match ActivationBy(s, e)
    case Some((v, candidate, h)) => Reloads(v, candidate, h) && Strands(h) && !Matches(candidate, v.active)
    case None => false
  }

  predicate StrandedBefore(states: seq<System>, events: seq<Event>, n: nat)
    requires n <= |events| <= |states|
  {
    exists k | 0 <= k < n :: StrandsAt(states[k], events[k]) && NoReload(states, events, k, n)
  }

  predicate NoReload(states: seq<System>, events: seq<Event>, k: nat, n: nat)
    requires n <= |events| <= |states|
  {
    forall m | k < m < n :: !ReloadsAt(states[m], events[m])
  }

  lemma {:induction false} StrandedBeforeStep(states: seq<System>, events: seq<Event>, n: nat)
    requires 0 < n <= |events| <= |states|
    ensures StrandedBefore(states, events, n)
            <==> StrandsAt(states[n - 1], events[n - 1])
                 || (StrandedBefore(states, events, n - 1) && !ReloadsAt(states[n - 1], events[n - 1]))
  {
    var m := n - 1;
    if StrandsAt(states[m], events[m]) {
      assert NoReload(states, events, m, n);
    }
    if StrandedBefore(states, events, m) && !ReloadsAt(states[m], events[m]) {
      var k :| 0 <= k < m && StrandsAt(states[k], events[k]) && NoReload(states, events, k, m);
      assert NoReload(states, events, k, n);
    }
    if StrandedBefore(states, events, n) && !StrandsAt(states[m], events[m]) {
      var k :| 0 <= k < n && StrandsAt(states[k], events[k]) && NoReload(states, events, k, n);
      assert NoReload(states, events, k, m);
    }
  }

  lemma {:induction false} DisagreeStep(s: System, e: Event)
    requires s.board.On? ==> Stamped(s.board.voice)
    requires Enabled(s, e) && Apply(s, e).board.On?
    ensures StrandsAt(s, e) ==> ReloadsAt(s, e)
    ensures !ReloadsAt(s, e) ==> s.board.On?
    ensures Disagrees(Apply(s, e).board.voice)
            <==> if ReloadsAt(s, e) then StrandsAt(s, e) else Disagrees(s.board.voice)
  {
    if ActivationBy(s, e).Some? {
      ActivationDisagrees(s, e);
    } else if e.PowerOn? {
      PowerOnAgrees(s, e);
    } else if s.board.On? {
      TableUntouched(s, e);
    }
  }

  lemma {:induction false} PowerOnAgrees(s: System, e: Event)
    requires Enabled(s, e) && e.PowerOn? && Apply(s, e).board.On?
    ensures ReloadsAt(s, e) && !StrandsAt(s, e) && !Disagrees(Apply(s, e).board.voice)
  {
    BootVoiceInv(s.board.stored, e.prefsReady, e.saved, e.builtins);
  }

  lemma {:induction false} ActivationDisagrees(s: System, e: Event)
    requires Enabled(s, e) && ActivationBy(s, e).Some? && Stamped(s.board.voice)
    ensures Apply(s, e).board.On?
    ensures Disagrees(Apply(s, e).board.voice)
            <==> if ReloadsAt(s, e) then StrandsAt(s, e) else Disagrees(s.board.voice)
  {
    var (v, candidate, h) := ActivationBy(s, e).value;
    ActivationAgreement(v, candidate, h);
    ActivationByMeans(s, e);
  }

  lemma {:induction false} ActivationByMeans(s: System, e: Event)
    requires Enabled(s, e) && ActivationBy(s, e).Some?
    ensures var (v, candidate, h) := ActivationBy(s, e).value;
            Apply(s, e).board.On? && Apply(s, e).board.voice == Activated(v, candidate, h)
            && v.active == s.board.voice.active && v.recognizer == s.board.voice.recognizer
  {
  }

  /** Any other event leaves the loaded and the active table alone. */
  lemma {:induction false} TableUntouched(s: System, e: Event)
    requires Enabled(s, e) && s.board.On? && ActivationBy(s, e).None? && Apply(s, e).board.On?
    ensures var v, v' := s.board.voice, Apply(s, e).board.voice;
            v'.active == v.active && (v'.recognizer.Running? <==> v.recognizer.Running?)
            && (v.recognizer.Running? ==> v'.recognizer.table == v.recognizer.table)
  {
  }

  /** Exactly when the loaded table names other actions than the active one: some activation had stranding
      answers, and since then no other has replaced the loaded table and the power has not failed. */
  lemma {:induction false} DisagreesExactly(states: seq<System>, events: seq<Event>, n: nat)
    requires IsRun(states, events) && n < |states| && states[n].board.On?
    ensures Disagrees(states[n].board.voice) <==> StrandedBefore(states, events, n)
  {
    if n == 0 {
    } else {
      RunKeepsInv(states, events, n - 1);
      var s, e := states[n - 1], events[n - 1];
      assert Enabled(s, e) && states[n] == Apply(s, e);
      DisagreeStep(s, e);
      StrandedBeforeStep(states, events, n);
      if s.board.On? {
        DisagreesExactly(states, events, n - 1);
      }
    }
  }

  /** In every run, between two worker turns the event stamp is the active revision; every queued command was
      recognised with the loaded table under the active revision; the loaded table names the active table's
      actions, unless it was stranded, and then the active revision is stale; and an update is under way
      exactly while the HTTPS worker waits for it. */
  lemma {:induction false} BoardAgrees(states: seq<System>, events: seq<Event>, n: nat)
    requires IsRun(states, events) && n < |states| && states[n].board.On?
    ensures var v := states[n].board.voice;
            v.callbackRevision == v.active.revision
            && (forall k | 0 <= k < |v.queue| :: EventOk(v.queue[k], v))
            && (Disagrees(v) <==> StrandedBefore(states, events, n))
            && (Disagrees(v) ==> v.active.revision < D.Revision(states[n].daemon.shared))
            && HandOver(v, states[n].board.https)
  {
    RunKeepsInv(states, events, n);
    DisagreesExactly(states, events, n);
  }

  // Requests and the tables that recognised them.

  /** The event is a turn in which the board builds a request. */
  predicate SubmitsAt(s: System, e: Event) {
    e.TurnMessage? && Enabled(s, e) && Submits(Received(s.board.voice, e.turn).1)
  }

  function BuiltAt(s: System, e: Event): Recognised
    requires SubmitsAt(s, e)
  {
    Built(Received(s.board.voice, e.turn).1, e.id, e.issuedAt)
  }

  lemma {:induction false} SubmitsFromSpeech(s: System, e: Event)
    requires SubmitsAt(s, e)
    ensures s.board.voice.queue[0].Speech?
  {
  }

  /** In every run, a submitted custom command was recognised with the loaded table; its action id is the
      active table's at the recognised index; and it is the recognising table's too exactly when that table
      was not stranded, or was and happens to name the same action at that index. */
  lemma {:induction false} SubmissionExactly(states: seq<System>, events: seq<Event>, n: nat)
    requires IsRun(states, events) && n < |events| && SubmitsAt(states[n], events[n])
    ensures var v, q := states[n].board.voice, BuiltAt(states[n], events[n]);
            v.recognizer.Running? && q.table == v.recognizer.table
            && q.index < |v.recognizer.table.commands| && q.index < |v.active.commands|
            && q.request.actionId == v.active.commands[q.index].actionId
            && q.request.voiceRevision == v.active.revision
            && (RecognisedAs(q) <==>
                (StrandedBefore(states, events, n) ==>
                   v.recognizer.table.commands[q.index].actionId == v.active.commands[q.index].actionId))
  {
    var s, e := states[n], events[n];
    RunKeepsInv(states, events, n);
    DisagreesExactly(states, events, n);
    SubmitsFromSpeech(s, e);
    SpeechTurnKeepsVoiceInv(s.board.voice, e.turn);
    SubmissionSound(s.board.voice, e.turn, s.daemon, e.id, e.issuedAt);
  }

  predicate HasIntent(b: Board, q: Recognised) {
    b.On? && CustomIntent(q) in b.intents
  }

  /** One step that puts a request on its way, or into the HTTPS worker's queue, takes it from that queue, or
      builds it. */
  lemma {:induction false} RequestStep(s: System, e: Event, q: Recognised)
    requires Enabled(s, e)
    ensures q in Apply(s, e).requests ==> q in s.requests || HasIntent(s.board, q)
    ensures HasIntent(Apply(s, e).board, q) ==> HasIntent(s.board, q) || (SubmitsAt(s, e) && BuiltAt(s, e) == q)
  {
  }

  /** In every run, each request was built in some turn. */
  lemma {:induction false} RequestOrigin(states: seq<System>, events: seq<Event>, n: nat, q: Recognised)
    returns (m: nat)
    requires IsRun(states, events) && n <= |events|
    requires q in states[n].requests || HasIntent(states[n].board, q)
    ensures m < n && SubmitsAt(states[m], events[m]) && BuiltAt(states[m], events[m]) == q
  {
    assert n > 0;
    var s, e := states[n - 1], events[n - 1];
    assert Enabled(s, e) && states[n] == Apply(s, e);
    RequestStep(s, e, q);
    if q in s.requests || HasIntent(s.board, q) {
      m := RequestOrigin(states, events, n - 1, q);
    } else {
      m := n - 1;
    }
  }

  /** In every run, a request whose recognised index did not name its action in the table that recognised it
      was built while a stranded table was loaded. */
  lemma {:induction false} MisrecognisedMeansStranded(states: seq<System>, events: seq<Event>, n: nat, q: Recognised)
    returns (m: nat)
    requires IsRun(states, events) && n < |states| && q in states[n].requests && !RecognisedAs(q)
    ensures m < n && SubmitsAt(states[m], events[m]) && BuiltAt(states[m], events[m]) == q
    ensures StrandedBefore(states, events, m)
  {
    m := RequestOrigin(states, events, n, q);
    SubmissionExactly(states, events, m);
  }

  /** What one step can do to a waiting HTTPS worker: leave it waiting, take its power, or answer it with the
      result of the activation of its own candidate, begun while no session was listening. */
  predicate AnsweredOwn(s: System, e: Event, s': System)
    requires s.board.On? && s.board.https.Waiting? && s'.board.On?
  {
    var v, c := s.board.voice, s.board.https.candidate;
    !v.listening
    && (e.TurnPending? || e.TurnMessage?)
    && s'.board.https == Answered(c, Activates(v, c, e.turn.hardware))
  }

  lemma {:induction false} ActivatesIgnoresQueue(v: Voice, queue: seq<Message>, pending: Option<Snapshot>,
                                                 c: Snapshot, h: Hardware)
    ensures Activates(v.(queue := queue, pending := pending), c, h) == Activates(v, c, h)
  {
  }

  lemma {:induction false} PendingAnswers(s: System, e: Event)
    requires Enabled(s, e) && e.TurnPending? && BoardInv(s.board, s.daemon)
    ensures s.board.https.Waiting? && Apply(s, e).board.On? && AnsweredOwn(s, e, Apply(s, e))
  {
    var v := s.board.voice;
    PendingReady(s.board, s.daemon);
    ActivatesIgnoresQueue(v, v.queue, None, v.pending.value, e.turn.hardware);
  }

  lemma {:induction false} UpdateAnswers(s: System, e: Event)
    requires Enabled(s, e) && e.TurnMessage? && s.board.voice.queue[0].Update? && BoardInv(s.board, s.daemon)
    ensures s.board.https.Waiting? && Apply(s, e).board.On?
    ensures if s.board.voice.listening then Apply(s, e).board.https == s.board.https
            else AnsweredOwn(s, e, Apply(s, e))
  {
    var v := s.board.voice;
    UpdateAtHead(s.board, s.daemon);
    ActivatesIgnoresQueue(v, v.queue[1..], v.pending, v.queue[0].config, e.turn.hardware);
  }

  /** Any other step leaves a waiting worker waiting, or takes its power, and brings no answer. */
  lemma {:induction false} OthersDoNotAnswer(s: System, e: Event)
    requires Enabled(s, e) && s.board.On? && !e.TurnPending?
    requires e.TurnMessage? ==> s.board.voice.queue[0].Speech?
    ensures var b := Apply(s, e).board;
            b.On? ==> (s.board.https.Waiting? || b.https.Answered? ==> b.https == s.board.https)
  {
  }

  lemma {:induction false} OneAnswerPerUpdate(s: System, e: Event)
    requires Inv(s) && Enabled(s, e) && s.board.On?
    ensures s.board.https.Waiting? ==>
              var b := Apply(s, e).board;
              b.Off? || b.https == s.board.https || AnsweredOwn(s, e, Apply(s, e))
    ensures !s.board.https.Waiting? ==>
              var b := Apply(s, e).board;
              b.On? && b.https.Answered? ==> b.https == s.board.https
  {
    if e.TurnPending? {
      PendingAnswers(s, e);
    } else if e.TurnMessage? && s.board.voice.queue[0].Update? {
      UpdateAnswers(s, e);
    } else {
      OthersDoNotAnswer(s, e);
    }
  }

  lemma {:induction false} AnswerStep(states: seq<System>, events: seq<Event>, k: nat)
    requires IsRun(states, events) && k < |events|
    requires states[k].board.On? && states[k].board.https.Waiting? && states[k + 1].board.On?
    ensures states[k + 1].board.https == states[k].board.https || AnsweredOwn(states[k], events[k], states[k + 1])
  {
    RunKeepsInv(states, events, k);
    OneAnswerPerUpdate(states[k], events[k]);
  }

  /** In every run, an HTTPS worker that waits keeps waiting with the same candidate until the one step that
      answers it, unless the board loses power first. */
  lemma {:induction false} AnsweredInRun(states: seq<System>, events: seq<Event>, i: nat, j: nat) returns (k: nat)
    requires IsRun(states, events) && i <= j < |states|
    requires forall n | i <= n <= j :: states[n].board.On?
    requires states[i].board.https.Waiting? && states[j].board.https != states[i].board.https
    ensures i <= k < j
    ensures forall n | i <= n <= k :: states[n].board.https == states[i].board.https
    ensures AnsweredOwn(states[k], events[k], states[k + 1])
    decreases j - i
  {
    AnswerStep(states, events, i);
    if states[i + 1].board.https == states[i].board.https {
      k := AnsweredInRun(states, events, i + 1, j);
    } else {
      k := i;
    }
  }

  // Sessions and commands.

  /** The event is a turn in which a wake word begins a session. */
  predicate WakesAt(s: System, e: Event) {
    e.TurnMessage? && Enabled(s, e) && s.board.voice.queue[0].Speech? && s.board.voice.queue[0].event.kind.Wakeword?
    && !s.board.voice.listening && Apply(s, e).board.On? && Apply(s, e).board.voice.listening
  }

  /** The event is a turn in which the worker follows a command. */
  predicate FollowsAt(s: System, e: Event) {
    e.TurnMessage? && Enabled(s, e) && s.board.voice.queue[0].Speech? && Received(s.board.voice, e.turn).1 != Silent
  }

  predicate ListensSince(s: System, startedAt: Tick) {
    s.board.On? && s.board.voice.listening && s.board.voice.startedAt == startedAt
  }

  /** The session open in state `n` was begun by the turn of event `m`, and has been open since. */
  predicate Begun(states: seq<System>, events: seq<Event>, m: nat, n: nat)
    requires n < |states| && |events| < |states|
  {
    m < n && m < |events| && WakesAt(states[m], events[m])
    && forall k | m < k <= n :: ListensSince(states[k], events[m].turn.now)
  }

  lemma {:induction false} ActivationLeavesSession(v: Voice, candidate: Snapshot, h: Hardware)
    ensures var after := Activated(v, candidate, h);
            after.listening == v.listening && after.startedAt == v.startedAt
  {
  }

  lemma {:induction false} EffectLeavesVoice(b: Board, output: Output, id: string, issuedAt: U64, taken: bool)
    requires b.On? && issuedAt + REQUEST_LIFETIME_MS < U64_LIMIT
    ensures Effect(b, output, id, issuedAt, taken).On? && Effect(b, output, id, issuedAt, taken).voice == b.voice
  {
  }

  lemma {:induction false} MessageSession(s: System, e: Event)
    requires Enabled(s, e) && e.TurnMessage?
    ensures Apply(s, e).board.On?
    ensures var v, after := s.board.voice, Apply(s, e).board.voice;
            after == Received(v, e.turn).0
            && (after.listening ==> (v.listening && after.startedAt == v.startedAt)
                                    || (WakesAt(s, e) && after.startedAt == e.turn.now))
            && (FollowsAt(s, e) ==> v.listening && !after.listening)
  {
    var v := s.board.voice;
    var (voice, output) := Received(v, e.turn);
    EffectLeavesVoice(s.board.(voice := voice), output, e.id, e.issuedAt, e.taken);
    match v.queue[0]
    case Update(config) => ActivationLeavesSession(v.(queue := v.queue[1..]), config, e.turn.hardware);
    case Speech(event) =>
      SpeechSessionExactly(v, e.turn, event);
      SpeechOutputExactly(v, e.turn, event);
  }

  /** A session that is open after a step was open before, or is begun by the step. */
  lemma {:induction false} SessionStep(s: System, e: Event)
    requires Enabled(s, e) && Apply(s, e).board.On? && Apply(s, e).board.voice.listening
    ensures ListensSince(s, Apply(s, e).board.voice.startedAt)
            || (WakesAt(s, e) && Apply(s, e).board.voice.startedAt == e.turn.now)
    ensures !FollowsAt(s, e)
  {
    if e.TurnMessage? {
      MessageSession(s, e);
    } else if e.TurnPending? {
      var v := s.board.voice;
      ActivationLeavesSession(v.(pending := None), v.pending.value, e.turn.hardware);
    } else if e.PowerOn? {
      BootExactly(s.board.stored, e.prefsReady, e.saved, e.builtins);
    }
  }

  lemma {:induction false} SessionStepInRun(states: seq<System>, events: seq<Event>, n: nat)
    requires IsRun(states, events) && n < |states| && states[n].board.On? && states[n].board.voice.listening
    ensures n > 0
    ensures ListensSince(states[n - 1], states[n].board.voice.startedAt)
            || (WakesAt(states[n - 1], events[n - 1])
                && states[n].board.voice.startedAt == events[n - 1].turn.now)
  {
    assert n > 0;
    assert Enabled(states[n - 1], events[n - 1]) && states[n] == Apply(states[n - 1], events[n - 1]);
    SessionStep(states[n - 1], events[n - 1]);
  }

  lemma {:induction false} SessionGoesOn(states: seq<System>, events: seq<Event>, m: nat, n: nat)
    requires 0 < n < |states| && |events| < |states| && Begun(states, events, m, n - 1)
    requires ListensSince(states[n], events[m].turn.now)
    ensures Begun(states, events, m, n)
  {
  }

  /** In every run, an open session goes back to the wake word that began it. */
  lemma {:induction false} SessionOrigin(states: seq<System>, events: seq<Event>, n: nat) returns (m: nat)
    requires IsRun(states, events) && n < |states| && states[n].board.On? && states[n].board.voice.listening
    ensures Begun(states, events, m, n)
  {
    SessionStepInRun(states, events, n);
    if ListensSince(states[n - 1], states[n].board.voice.startedAt) {
      m := SessionOrigin(states, events, n - 1);
      assert ListensSince(states[n - 1], events[m].turn.now);
      SessionGoesOn(states, events, m, n);
    } else {
      m := n - 1;
    }
  }

  /** In every run, a command that is followed (a wake packet, a media key, a synchronisation or a custom
      action) was detected less than 5760 ms, modulo the counter's wrap, after the turn of a wake word that
      began the session; the session ends with it, and no other command was followed in between. */
  lemma {:induction false} FollowedInSession(states: seq<System>, events: seq<Event>, n: nat) returns (m: nat)
    requires IsRun(states, events) && n < |events| && FollowsAt(states[n], events[n])
    ensures Begun(states, events, m, n) && states[n].board.voice.queue[0].event.kind.Command?
    ensures (states[n].board.voice.queue[0].event.detectedAt - events[m].turn.now) % 0x1_0000_0000 < 5760
    ensures forall k | m < k < n :: !FollowsAt(states[k], events[k])
    ensures states[n + 1].board.On? && !states[n + 1].board.voice.listening
  {
    var s, e := states[n], events[n];
    assert states[n + 1] == Apply(s, e);
    MessageSession(s, e);
    SpeechOutputExactly(s.board.voice, e.turn, s.board.voice.queue[0].event);
    m := SessionOrigin(states, events, n);
    assert ListensSince(s, events[m].turn.now);
    forall k | m < k < n
      ensures !FollowsAt(states[k], events[k])
    {
      assert ListensSince(states[k + 1], events[m].turn.now);
      assert Enabled(states[k], events[k]) && states[k + 1] == Apply(states[k], events[k]);
      SessionStep(states[k], events[k]);
    }
  }

  /** In every run, a new wake word lies between two followed commands. */
  lemma {:induction false} OneCommandPerWakeWord(states: seq<System>, events: seq<Event>, k: nat, n: nat)
    returns (m: nat)
    requires IsRun(states, events) && k < n < |events|
    requires FollowsAt(states[k], events[k]) && FollowsAt(states[n], events[n])
    ensures k < m < n && Begun(states, events, m, n)
  {
    m := FollowedInSession(states, events, n);
    var earlier := FollowedInSession(states, events, k);
  }

  /** In every run, each request ever sent answers a wake word: it was built in a turn whose command was
      detected less than 5760 ms after the turn of the wake word, modulo the counter's wrap. */
  lemma {:induction false} RequestAnswersWakeWord(states: seq<System>, events: seq<Event>, n: nat, q: Recognised)
    returns (m: nat, k: nat)
    requires IsRun(states, events) && n < |states| && q in states[n].requests
    ensures m < k < n && SubmitsAt(states[k], events[k]) && BuiltAt(states[k], events[k]) == q
    ensures Begun(states, events, m, k)
    ensures (states[k].board.voice.queue[0].event.detectedAt - events[m].turn.now) % 0x1_0000_0000 < 5760
  {
    k := RequestOrigin(states, events, n, q);
    SubmitsFromSpeech(states[k], events[k]);
    m := FollowedInSession(states, events, k);
  }

  // What the board does with a followed command, and with a table.

  /** Exactly when a turn of the worker builds a request, and what it asks for: a command heard in its session,
      with the id of an entry of the active table, whose revision fits the request's 32-bit field. */
  lemma {:induction false} SubmitsExactly(v: Voice, turn: Turn, id: string, issuedAt: U64)
    requires VoiceInv(v) && v.queue != [] && v.queue[0].Speech? && issuedAt + REQUEST_LIFETIME_MS < U64_LIMIT
    ensures var output, index := Received(v, turn).1, v.queue[0].event.commandId - 100;
            (Submits(output) <==>
             Heard(v, turn, v.queue[0].event) && 0 <= index < 12 && index < |v.active.commands|
             && v.active.revision < 0x1_0000_0000)
            && (Submits(output) ==>
                  var q := Built(output, id, issuedAt);
                  q.index == index
                  && q.request == CustomActionRequest(id, v.active.commands[index].actionId, v.active.revision,
                                                      issuedAt, issuedAt + 5000))
  {
    assert EventOk(v.queue[0], v);
    SpeechOutputExactly(v, turn, v.queue[0].event);
  }

  /** A followed command becomes the HTTPS worker's next job exactly when the submission is taken and no job
      waits: a media key for the ids 2 to 7, a synchronisation for 8, the built request for a custom action. */
  lemma {:induction false} JobQueued(s: System, e: Event)
    requires Enabled(s, e) && FollowsAt(s, e)
    ensures var b, after, id := s.board, Apply(s, e).board, s.board.voice.queue[0].event.commandId;
            after.On? && after.https == b.https && Apply(s, e).requests == s.requests
            && after.intents
               == if !e.taken || b.intents != [] then b.intents
                  else if 2 <= id <= 7 then [MediaIntent]
                  else if id == 8 then [SyncIntent]
                  else if SubmitsAt(s, e) then [CustomIntent(BuiltAt(s, e))] else []
  {
    SpeechOutputExactly(s.board.voice, e.turn, s.board.voice.queue[0].event);
  }

  /** Jobs are started in order: a synchronisation fetches, a custom action's request is sent, unless dropped. */
  lemma {:induction false} JobStarted(s: System, dropped: bool)
    requires Enabled(s, StartJob(dropped))
    ensures var b, s' := s.board, Apply(s, StartJob(dropped));
            s'.board.On? && s'.board.voice == b.voice && s'.board.intents == b.intents[1..]
            && s'.board.https == (if b.intents[0].SyncIntent? && !dropped then Fetching else Resting)
            && s'.requests == if b.intents[0].CustomIntent? && !dropped then s.requests + {b.intents[0].recognised}
                              else s.requests
  {
  }

  lemma {:induction false} FetchedIsUsable(b: Board, d: D.State)
    requires D.Inv(d) && BoardInv(b, d) && b.On? && b.https.Fetched?
    ensures Usable(b.https.table) <==> b.https.table.revision < 0x1_0000_0000
  {
    assert b.https.table == d.meanings[b.https.table.revision].table;
  }

  /** In every run, a fetched table is handed to the voice worker exactly when its reply was received, its
      revision fits the board's 32-bit field and the worker's queue has room: the content never stands in
      the way.  Otherwise the attempt is over. */
  lemma {:induction false} TableHandedOver(states: seq<System>, events: seq<Event>, n: nat)
    requires IsRun(states, events) && n < |events| && events[n].TakeTable?
    ensures states[n].board.On? && states[n + 1].board.On?
    ensures var b, after := states[n].board, states[n + 1].board;
            if b.https.Fetched? && events[n].received && b.https.table.revision < 0x1_0000_0000 && |b.voice.queue| < 8
            then var table := b.https.table;
                 after.https == Waiting(Snapshot(table.schema, table.revision, table.commands))
                 && after.voice == b.voice.(queue := b.voice.queue + [Update(after.https.candidate)])
            else after.https == Resting && after.voice == b.voice
  {
    var s := states[n];
    assert Enabled(s, events[n]) && states[n + 1] == Apply(s, events[n]);
    RunKeepsInv(states, events, n);
    if s.board.https.Fetched? {
      FetchedIsUsable(s.board, s.daemon);
    }
  }

  /** A revision is acknowledged exactly when its own update succeeded and the acknowledgement is sent. */
  lemma {:induction false} Acknowledges(s: System, sent: bool, revision: nat)
    requires Enabled(s, FinishSync(sent)) && revision !in s.acks
    ensures revision in Apply(s, FinishSync(sent)).acks
            <==> sent && s.board.https.success && s.board.https.candidate.revision == revision
    ensures Apply(s, FinishSync(sent)).board == s.board.(https := Resting)
  {
  }

  // What a power cycle restores.

  /** In every run, when the power returns, the board runs the table that is stored, which is the one
      published under its revision and no older than any acknowledged one, if the storage can be opened and
      the recogniser starts; without a stored table, or if its start fails, it runs the built-in commands if
      they start; it stays off exactly when no start works. */
  lemma {:induction false} BootsPersisted(states: seq<System>, events: seq<Event>, n: nat)
    requires IsRun(states, events) && n < |events| && events[n].PowerOn?
    ensures var e, stored, b, d := events[n], Bootable(StoreOf(states[n].board)), states[n + 1].board, states[n].daemon;
            (b.Off? <==> !Works(e.saved) && !Works(e.builtins))
            && (b.On? ==>
                  b.voice.recognizer == Running(b.voice.active, false)
                  && if e.prefsReady && stored.Some? && Works(e.saved) then
                       b.voice.active == stored.value
                       && b.voice.active.revision == PersistedRevision(StoreOf(states[n].board))
                       && b.voice.active.revision in d.meanings
                       && b.voice.active.commands == d.meanings[b.voice.active.revision].table.commands
                       && AcksCovered(d, b.voice.active.revision)
                     else b.voice.active == BUILTINS)
  {
    var s, e := states[n], events[n];
    assert Enabled(s, e) && states[n + 1] == Apply(s, e);
    RunKeepsInv(states, events, n);
    BootExactly(s.board.stored, e.prefsReady, e.saved, e.builtins);
  }

  // What is executed.

  /** A request about the newest published table, with no action saved since, selects an action. */
  lemma {:induction false} CurrentSelects(d: D.State, q: Recognised)
    requires D.Inv(d) && RequestNamed(q, d.meanings)
    ensures Selects(d.dispatcher, Request.Custom(q.request))
            <==> d.dispatcher.published.Some? && d.dispatcher.published.value.revision == q.request.voiceRevision
                 && d.dispatcher.published.value.actionsRevision == d.dispatcher.actionsRevision
  {
    var c, request := d.dispatcher, q.request;
    ResolvesExactly(c, request);
    D.ResolvesAsPublished(d, request);
    if c.published.Some? && c.published.value.revision == request.voiceRevision {
      assert c.published.value == d.meanings[request.voiceRevision].table;
      assert c.published.value.commands[q.index].actionId == request.actionId;
    }
  }

  lemma {:induction false} DeliveryExactly(s: System, q: Recognised, lockFree: bool, now: U64, slotFree: bool)
    requires Inv(s) && q in s.requests && q.request.expiresAt == q.request.issuedAt + 5000
    ensures var d := s.daemon;
            (Ran(d, Attempt(Request.Custom(q.request), d.dispatcher, lockFree, now, slotFree)) != [])
            <==> q.request.issuedAt - 5000 <= now < q.request.issuedAt + 5000
                 && lockFree && slotFree
                 && d.dispatcher.published.Some? && d.dispatcher.published.value.revision == q.request.voiceRevision
                 && d.dispatcher.published.value.actionsRevision == d.dispatcher.actionsRevision
                 && !RemembersId(d.entries, q.request.id, now) && |Live(d.entries, now)| < 128
  {
    var a := Attempt(Request.Custom(q.request), s.daemon.dispatcher, lockFree, now, slotFree);
    AdmittedExactly(s.daemon.entries, a);
    ScreenedExactly(a);
    CurrentSelects(s.daemon, q);
  }

  /** In every run, exactly when a delivered request executes: it arrives within 5000 ms around its issue, the
      lifecycle lock is free, its revision is the published one and no action was saved since, its id is not
      remembered, fewer than 128 ids are, and the executor has a free slot. */
  lemma {:induction false} ExecutesExactly(states: seq<System>, events: seq<Event>, n: nat)
    requires IsRun(states, events) && n < |events| && events[n].Deliver?
    ensures var e, d, q := events[n], states[n].daemon, events[n].recognised.request;
            (states[n + 1].executed != states[n].executed)
            <==> q.issuedAt - 5000 <= e.now < q.issuedAt + 5000
                 && e.lockFree && e.slotFree
                 && d.dispatcher.published.Some? && d.dispatcher.published.value.revision == q.voiceRevision
                 && d.dispatcher.published.value.actionsRevision == d.dispatcher.actionsRevision
                 && !RemembersId(d.entries, q.id, e.now) && |Live(d.entries, e.now)| < 128
  {
    var s, e := states[n], events[n];
    assert Enabled(s, e) && states[n + 1] == Apply(s, e);
    RunKeepsInv(states, events, n);
    var m := RequestOrigin(states, events, n, e.recognised);
    DeliveryExactly(s, e.recognised, e.lockFree, e.now, e.slotFree);
  }
}

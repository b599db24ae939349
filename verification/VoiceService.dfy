/** The firmware's voice service: two storage slots and the number of the current one, the recogniser, the
    event queue and the worker.  What the hardware and the libraries answer is a parameter of each step. */
module VoiceService {
  import opened Common
  import opened Clock
  import opened Domain
  import Session = VoiceSession

  const EVENT_QUEUE_LENGTH := 8
  const WAKE_COMMAND_ID := 1
  const MEDIA_COMMAND_FIRST_ID := 2
  const SYNC_COMMAND_ID := 8
  const CUSTOM_COMMAND_FIRST_ID := 100

  /** A phrase table; revision 0 stands for the built-in commands alone. */
  datatype Snapshot = Snapshot(schema: nat, revision: nat, commands: seq<VoiceCommand>)

  const BUILTINS := Snapshot(0, 0, [])

  predicate SnapshotOk(s: Snapshot) {
    s.schema == VOICE_CONFIG_SCHEMA && s.revision != 0 && IdsValid(s.commands) && CommandsValid(s.commands)
  }

  // Storage.  Each key is written atomically.

  datatype Store = Store(slot: nat, voice0: Option<Snapshot>, voice1: Option<Snapshot>)

  const BLANK_STORE := Store(0, None, None)

  function Stored(s: Store, k: nat): Option<Snapshot> {
    if k == 0 then s.voice0 else s.voice1
  }

  function WithSlot(s: Store, k: nat, config: Snapshot): Store {
    if k == 0 then s.(voice0 := Some(config)) else s.(voice1 := Some(config))
  }

  /** `read_config_slot`: a slot counts only when it holds a valid table. */
  function ReadSlot(s: Store, k: nat): Option<Snapshot> {
    if Stored(s, k).Some? && SnapshotOk(Stored(s, k).value) then Stored(s, k) else None
  }

  /** What a boot reads: the slot named by the stored slot number. */
  function Bootable(s: Store): Option<Snapshot> {
    if s.slot <= 1 then ReadSlot(s, s.slot) else None
  }

  function PersistedRevision(s: Store): nat {
    if Bootable(s).Some? then Bootable(s).value.revision else 0
  }

  // The recogniser.

  datatype Recognizer = Stopped | Running(table: Snapshot, commandMode: bool)

  /** The answers to one `start_recognizer`: `begin`, the read-back of the phrases, and the `end` that
      follows a failed read-back. */
  datatype StartAnswers = StartAnswers(begins: bool, phrasesKept: bool, ends: bool)

  predicate Startable(config: Snapshot) {
    config.revision == 0 || SnapshotOk(config)
  }

  function Started(config: Snapshot, a: StartAnswers): bool {
    Startable(config) && a.begins && a.phrasesKept
  }

  function AfterStart(r: Recognizer, config: Snapshot, a: StartAnswers): Recognizer {
    if !Startable(config) || !a.begins then r
    else if a.phrasesKept || !a.ends then Running(config, false)
    else Stopped
  }

  function SetMode(r: Recognizer, commandMode: bool, answered: bool): Recognizer {
    if answered && r.Running? then r.(commandMode := commandMode) else r
  }

  // Events and messages.

  datatype EventKind = Wakeword | Command | Timeout

  /** `table` is the recogniser's table at detection (history only). */
  datatype SpeechEvent = SpeechEvent(kind: EventKind, commandId: int, detectedAt: Tick, revision: nat, table: Snapshot)

  datatype Message = Speech(event: SpeechEvent) | Update(config: Snapshot)

  datatype CommandMeaning = Invalid | Wake | Media(index: nat) | Sync | Custom(index: nat)

  function CommandFromId(id: int): CommandMeaning {
    if id == WAKE_COMMAND_ID then Wake
    else if id == SYNC_COMMAND_ID then Sync
    else if CUSTOM_COMMAND_FIRST_ID <= id < CUSTOM_COMMAND_FIRST_ID + MAX_VOICE_ACTIONS
    then Custom(id - CUSTOM_COMMAND_FIRST_ID)
    else if MEDIA_COMMAND_FIRST_ID <= id < MEDIA_COMMAND_FIRST_ID + 6 then Media(id - MEDIA_COMMAND_FIRST_ID)
    else Invalid
  }

  /** The ids of a recogniser loaded with a table: the eight built-in commands and the table's entries. */
  predicate InTable(id: int, table: Snapshot) {
    WAKE_COMMAND_ID <= id <= SYNC_COMMAND_ID
    || CUSTOM_COMMAND_FIRST_ID <= id < CUSTOM_COMMAND_FIRST_ID + |table.commands|
  }

  datatype Voice = Voice(
    store: Store, prefsReady: bool, active: Snapshot, callbackRevision: nat, recognizer: Recognizer,
    queue: seq<Message>, listening: bool, startedAt: Tick, pending: Option<Snapshot>)

  // Activation.

  /** The answers during one activation.  A storage write reports success or not, and separately takes
      effect or not; `posted` are the events the recogniser posts while the worker is busy. */
  datatype Hardware = Hardware(
    bytesReported: bool, bytesTake: bool, endsFirst: bool, posted: seq<Message>, candidate: StartAnswers,
    pointerReported: bool, pointerTakes: bool, endsLast: bool, active: StartAnswers, builtins: StartAnswers)

  predicate QuietPosts(posted: seq<Message>) {
    |posted| <= EVENT_QUEUE_LENGTH
    && forall k | 0 <= k < |posted| :: posted[k].Speech? && !posted[k].event.kind.Command?
  }

  /** What is assumed of the hardware: a write reported as done has been done, and a recogniser that has
      just begun is in wake-word mode, so it posts no command. */
  predicate HardwareSound(h: Hardware) {
    (h.pointerReported ==> h.pointerTakes) && QuietPosts(h.posted)
  }

  function Spare(s: Store): nat {
    if s.slot == 0 then 1 else 0
  }

  /** Whether the candidate is newer and gets past storage, up to stopping the recogniser. */
  predicate Prepared(v: Voice, candidate: Snapshot, h: Hardware) {
    v.prefsReady && SnapshotOk(candidate) && candidate.revision > v.active.revision && v.store.slot <= 1
    && h.bytesReported && ReadSlot(Staged(v, candidate, h), Spare(v.store)) == Some(candidate)
  }

  function Staged(v: Voice, candidate: Snapshot, h: Hardware): Store {
    if h.bytesTake then WithSlot(v.store, Spare(v.store), candidate) else v.store
  }

  predicate Stages(v: Voice, candidate: Snapshot) {
    v.prefsReady && SnapshotOk(candidate) && candidate.revision > v.active.revision && v.store.slot <= 1
  }

  function Flipped(s: Store, h: Hardware): Store {
    if h.pointerTakes then s.(slot := Spare(s)) else s
  }

  predicate Accepts(v: Voice, candidate: Snapshot, h: Hardware) {
    Prepared(v, candidate, h) && h.endsFirst && Started(candidate, h.candidate)
  }

  predicate Activates(v: Voice, candidate: Snapshot, h: Hardware) {
    if v.prefsReady && SnapshotOk(candidate) && candidate.revision == v.active.revision then candidate == v.active
    else Accepts(v, candidate, h) && h.pointerReported
  }

  /** The stored states an activation passes through, in order. */
  function StoreTrail(v: Voice, candidate: Snapshot, h: Hardware): seq<Store> {
    if !Stages(v, candidate) then []
    else if !Accepts(v, candidate, h) then [Staged(v, candidate, h)]
    else [Staged(v, candidate, h), Flipped(Staged(v, candidate, h), h)]
  }

  /** The recogniser when the attempt with the candidate is over and the old table is to be restored. */
  function BeforeRollback(candidate: Snapshot, h: Hardware): Recognizer {
    var tried := AfterStart(Stopped, candidate, h.candidate);
    if Started(candidate, h.candidate) && h.endsLast then Stopped else tried
  }

  function Rollback(v: Voice, r: Recognizer, h: Hardware): Voice {
    var restored := AfterStart(r, v.active, h.active);
    if Started(v.active, h.active) then v.(recognizer := restored)
    else
      var fallen := AfterStart(restored, BUILTINS, h.builtins);
      if Started(BUILTINS, h.builtins) then v.(recognizer := fallen, active := BUILTINS, callbackRevision := 0)
      else v.(recognizer := fallen)
  }

  /** From a staged candidate: stop the recogniser, start the candidate, change the slot number, or roll back. */
  function Swapped(v: Voice, candidate: Snapshot, h: Hardware): Voice {
    if !h.endsFirst then v
    else
      var quiet := v.(queue := h.posted);
      if !Started(candidate, h.candidate) then Rollback(quiet, BeforeRollback(candidate, h), h)
      else
        var flipped := quiet.(store := Flipped(v.store, h));
        if h.pointerReported
        then flipped.(recognizer := Running(candidate, false), active := candidate,
                      callbackRevision := candidate.revision)
        else Rollback(flipped, BeforeRollback(candidate, h), h)
  }

  /** The state after `activate_config`. */
  function Activated(v: Voice, candidate: Snapshot, h: Hardware): Voice {
    if !Stages(v, candidate) then v
    else if !Prepared(v, candidate, h) then v.(store := Staged(v, candidate, h))
    else Swapped(v.(store := Staged(v, candidate, h)), candidate, h)
  }

  // Boot.

  function BootTable(store: Store, prefsReady: bool): Snapshot {
    if prefsReady && Bootable(store).Some? then Bootable(store).value else BUILTINS
  }

  /** `voice_service_start` after the microphone is set up; nothing when even the built-ins do not start. */
  function Boot(store: Store, prefsReady: bool, saved: StartAnswers, builtins: StartAnswers): Option<Voice> {
    var table := BootTable(store, prefsReady);
    var r := AfterStart(Stopped, table, saved);
    if Started(table, saved) then Some(Voice(store, prefsReady, table, table.revision, r, [], false, 0, None))
    else if Started(BUILTINS, builtins)
    then Some(Voice(store, prefsReady, BUILTINS, 0, AfterStart(r, BUILTINS, builtins), [], false, 0, None))
    else None
  }

  // The recogniser's callback and the worker.

  function Detected(v: Voice, kind: EventKind, commandId: int, at: Tick): Voice
    requires v.recognizer.Running?
  {
    if |v.queue| >= EVENT_QUEUE_LENGTH then v
    else v.(queue := v.queue + [Speech(SpeechEvent(kind, commandId, at, v.callbackRevision, v.recognizer.table))])
  }

  /** What one turn of the worker hands to the rest of the firmware. */
  datatype Output =
    | Silent
    | Notified(config: Snapshot, success: bool)
    | SubmitCustom(actionId: string, revision: nat, event: SpeechEvent)
    | SubmitMedia(index: nat)
    | RequestSync
    | SendWake

  /** The answers during one turn: the clock, the mode switch, and an activation if there is one. */
  datatype Turn = Turn(now: Tick, modeSet: bool, hardware: Hardware)

  predicate PendingDue(v: Voice) {
    v.pending.Some? && !v.listening
  }

  function RunPending(v: Voice, t: Turn): (Voice, Output)
    requires PendingDue(v)
  {
    (Activated(v.(pending := None), v.pending.value, t.hardware),
     Notified(v.pending.value, Activates(v, v.pending.value, t.hardware)))
  }

  function AcceptedInTime(v: Voice, event: SpeechEvent): bool {
    CommandFromId(event.commandId) != Invalid && Session.InWindow(v.startedAt, event.detectedAt)
  }

  function Received(v: Voice, t: Turn): (Voice, Output)
    requires v.queue != []
  {
    var message, rest := v.queue[0], v.(queue := v.queue[1..]);
    match message
    case Update(config) =>
      if v.listening then (rest.(pending := Some(config)), Silent)
      else (Activated(rest, config, t.hardware), Notified(config, Activates(rest, config, t.hardware)))
    case Speech(event) =>
      match event.kind
      case Wakeword =>
        if v.listening then (rest, Silent)
        else
          var commandMode := t.modeSet && v.recognizer.Running?;
          (rest.(startedAt := t.now, listening := commandMode,
                 recognizer := SetMode(v.recognizer, true, t.modeSet)), Silent)
      case Timeout =>
        (rest.(listening := false, recognizer := SetMode(v.recognizer, false, t.modeSet)), Silent)
      case Command =>
        var after := rest.(listening := false, recognizer := SetMode(v.recognizer, false, t.modeSet));
        if !v.listening || !AcceptedInTime(v, event) || !(t.modeSet && v.recognizer.Running?) then (after, Silent)
        else (after, Submission(v.active, event))
  }

  function Submission(active: Snapshot, event: SpeechEvent): Output {
    match CommandFromId(event.commandId)
    case Custom(index) =>
      if event.revision != active.revision || index >= |active.commands| then Silent
      else SubmitCustom(active.commands[index].actionId, event.revision, event)
    case Media(index) => SubmitMedia(index)
    case Sync => RequestSync
    case Wake => SendWake
    case Invalid => Silent
  }

  class VoiceService {
    var store: Store
    var prefsReady: bool
    var active: Snapshot
    var callbackRevision: nat
    var recognizer: Recognizer
    var queue: seq<Message>
    var listening: bool
    var startedAt: Tick
    var pending: Option<Snapshot>
    ghost var trail: seq<Store>

    function View(): Voice
      reads this
    {
      Voice(store, prefsReady, active, callbackRevision, recognizer, queue, listening, startedAt, pending)
    }

    constructor (v: Voice)
      ensures View() == v && trail == []
    {
      store, prefsReady, active, callbackRevision := v.store, v.prefsReady, v.active, v.callbackRevision;
      recognizer, queue, listening, startedAt, pending := v.recognizer, v.queue, v.listening, v.startedAt, v.pending;
      trail := [];
    }

    method StartRecognizer(config: Snapshot, a: StartAnswers) returns (started: bool)
      modifies this`recognizer
      ensures started == Started(config, a)
      ensures recognizer == AfterStart(old(recognizer), config, a)
    {
      if !Startable(config) || !a.begins {
        return false;
      }
      recognizer := Running(config, false);
      if !a.phrasesKept {
        if a.ends {
          recognizer := Stopped;
        }
        return false;
      }
      return true;
    }

    method RollBack(h: Hardware)
      modifies this`recognizer, this`active, this`callbackRevision
      ensures View() == Rollback(old(View()), old(recognizer), h)
    {
      var restored := StartRecognizer(active, h.active);
      if !restored {
        var builtins := BUILTINS;
        var fallen := StartRecognizer(builtins, h.builtins);
        if fallen {
          active, callbackRevision := builtins, 0;
        }
      }
    }

    /** Staging in the spare slot, with the read-back. */
    method StageCandidate(candidate: Snapshot, h: Hardware) returns (prepared: bool)
      requires Stages(View(), candidate)
      modifies this`store, this`trail
      ensures store == Staged(old(View()), candidate, h)
      ensures prepared == Prepared(old(View()), candidate, h)
      ensures trail == old(trail) + [store]
    {
      var candidateSlot := 1 - store.slot;
      if h.bytesTake {
        store := WithSlot(store, candidateSlot, candidate);
      }
      trail := trail + [store];
      if !h.bytesReported {
        return false;
      }
      var persisted := ReadSlot(store, candidateSlot);
      return persisted == Some(candidate);
    }

    /** Swapping the recogniser's table and then the slot number, from a staged candidate. */
    method SwapCandidate(candidate: Snapshot, h: Hardware) returns (success: bool)
      requires SnapshotOk(candidate) && store.slot <= 1
      modifies this`store, this`recognizer, this`queue, this`active, this`callbackRevision, this`trail
      ensures success == (h.endsFirst && Started(candidate, h.candidate) && h.pointerReported)
      ensures View() == Swapped(old(View()), candidate, h)
      ensures trail == old(trail) + (if h.endsFirst && Started(candidate, h.candidate) then [store] else [])
    {
      if !h.endsFirst {
        return false;
      }
      recognizer := Stopped;
      queue := h.posted;
      var started := StartRecognizer(candidate, h.candidate);
      if !started {
        RollBack(h);
        return false;
      }
      if h.pointerTakes {
        store := store.(slot := 1 - store.slot);
      }
      trail := trail + [store];
      if !h.pointerReported {
        if h.endsLast {
          recognizer := Stopped;
        }
        RollBack(h);
        return false;
      }
      active := candidate;
      callbackRevision := active.revision;
      return true;
    }

    /** `activate_config`. */
    method ActivateConfig(candidate: Snapshot, h: Hardware) returns (success: bool)
      modifies this`store, this`recognizer, this`queue, this`active, this`callbackRevision, this`trail
      ensures View() == Activated(old(View()), candidate, h)
      ensures success == Activates(old(View()), candidate, h)
      ensures trail == old(trail) + StoreTrail(old(View()), candidate, h)
    {
      if !prefsReady || !SnapshotOk(candidate) {
        return false;
      }
      if candidate.revision == active.revision {
        return candidate == active;
      }
      if candidate.revision < active.revision || store.slot > 1 {
        return false;
      }
      success := StageCandidate(candidate, h);
      if success {
        success := SwapCandidate(candidate, h);
      }
    }

    method OnSpeechEvent(kind: EventKind, commandId: int, at: Tick)
      requires recognizer.Running?
      modifies this`queue
      ensures View() == Detected(old(View()), kind, commandId, at)
    {
      var notification := SpeechEvent(kind, commandId, at, callbackRevision, recognizer.table);
      if |queue| < EVENT_QUEUE_LENGTH {
        queue := queue + [Speech(notification)];
      }
    }

    method SwitchMode(commandMode: bool, answered: bool) returns (ok: bool)
      modifies this`recognizer
      ensures recognizer == SetMode(old(recognizer), commandMode, answered)
      ensures ok == (answered && old(recognizer).Running?)
    {
      ok := answered && recognizer.Running?;
      if ok {
        recognizer := recognizer.(commandMode := commandMode);
      }
    }

    /** The head of the worker's loop. */
    method FinishPending(t: Turn) returns (output: Output)
      requires PendingDue(View())
      modifies this
      ensures (View(), output) == RunPending(old(View()), t)
    {
      var config := pending.value;
      pending := None;
      var success := ActivateConfig(config, t.hardware);
      output := Notified(config, success);
    }

    /** One message taken from the queue. */
    method ReceiveMessage(t: Turn) returns (output: Output)
      requires queue != []
      modifies this
      ensures (View(), output) == Received(old(View()), t)
    {
      var message := queue[0];
      queue := queue[1..];
      output := Silent;
      if message.Update? {
        if listening {
          pending := Some(message.config);
        } else {
          var success := ActivateConfig(message.config, t.hardware);
          output := Notified(message.config, success);
        }
        return;
      }
      var event := message.event;
      if event.kind.Wakeword? {
        if listening {
          return;
        }
        startedAt, listening := t.now, true;
        var commandMode := SwitchMode(true, t.modeSet);
        if !commandMode {
          listening := false;
        }
        return;
      }
      if event.kind.Timeout? {
        listening := false;
        var restored := SwitchMode(false, t.modeSet);
        return;
      }
      if !listening {
        var restored := SwitchMode(false, t.modeSet);
        return;
      }
      var command := CommandFromId(event.commandId);
      var accepted := command != Invalid && Session.InWindow(startedAt, event.detectedAt);
      listening := false;
      var wakewordMode := SwitchMode(false, t.modeSet);
      if !accepted || !wakewordMode {
        return;
      }
      match command {
        case Custom(index) =>
          if event.revision == active.revision && index < |active.commands| {
            output := SubmitCustom(active.commands[index].actionId, event.revision, event);
          }
        case Media(index) => output := SubmitMedia(index);
        case Sync => output := RequestSync;
        case _ => output := SendWake;
      }
    }
  }

  // Crash recovery.

  /** Whatever the answers and wherever the power fails, the stored states of an activation keep the named
      slot's contents, and a boot reads in full either what it would have read before or the candidate; the
      slot number changes only when the recogniser had accepted the candidate; success means the candidate is
      stored, named, active and stamped on events. */
  lemma {:induction false} CrashRecovery(v: Voice, candidate: Snapshot, h: Hardware)
    requires HardwareSound(h)
    ensures forall k | 0 <= k < |StoreTrail(v, candidate, h)| ::
              var s := StoreTrail(v, candidate, h)[k];
              Stored(s, v.store.slot) == Stored(v.store, v.store.slot)
              && (Bootable(s) == Bootable(v.store) || Bootable(s) == Some(candidate))
              && (s.slot != v.store.slot ==> Accepts(v, candidate, h) && Bootable(s) == Some(candidate))
    ensures Activates(v, candidate, h) && candidate != v.active ==>
              var after := Activated(v, candidate, h);
              Bootable(after.store) == Some(candidate) && after.active == candidate
              && after.callbackRevision == candidate.revision && after.recognizer == Running(candidate, false)
    ensures !Activates(v, candidate, h) ==>
              var after := Activated(v, candidate, h);
              after.active == v.active || after.active == BUILTINS
  {
  }

  // Agreement of events with the active table.

  /** Every custom entry of a recogniser table has the same action in the active table. */
  predicate Matches(table: Snapshot, active: Snapshot) {
    |table.commands| <= |active.commands|
    && forall i | 0 <= i < |table.commands| :: table.commands[i].actionId == active.commands[i].actionId
  }

  predicate TableOk(s: Snapshot) {
    s == BUILTINS || SnapshotOk(s)
  }

  /** Events are stamped with the active revision. */
  predicate Stamped(v: Voice) {
    v.callbackRevision == v.active.revision && TableOk(v.active)
  }

  /** The recogniser runs with a table whose entries have other actions than the active table's. */
  predicate Disagrees(v: Voice) {
    v.recognizer.Running? && !Matches(v.recognizer.table, v.active)
  }

  /** The answers that leave the candidate loaded although it was not activated: an `end` that fails while
      the candidate runs, and then two failing restarts. */
  predicate Strands(h: Hardware) {
    h.candidate.begins && !h.active.begins && !h.builtins.begins
    && if h.candidate.phrasesKept then !h.pointerReported && !h.endsLast else !h.candidate.ends
  }

  /** The activation gets as far as stopping the recogniser. */
  predicate Reloads(v: Voice, candidate: Snapshot, h: Hardware) {
    Prepared(v, candidate, h) && h.endsFirst
  }

  lemma {:induction false} RollbackAgreement(v: Voice, candidate: Snapshot, h: Hardware)
    requires Stamped(v) && SnapshotOk(candidate) && !(Started(candidate, h.candidate) && h.pointerReported)
    ensures var after := Rollback(v, BeforeRollback(candidate, h), h);
            Stamped(after) && (Disagrees(after) <==> Strands(h) && !Matches(candidate, v.active))
  {
    var r := BeforeRollback(candidate, h);
    assert r == Stopped || r == Running(candidate, false);
    if h.active.begins || h.builtins.begins {
      assert !Strands(h);
    } else {
      assert Rollback(v, r, h).recognizer == r;
    }
  }

  lemma {:induction false} SwapAgreement(v: Voice, candidate: Snapshot, h: Hardware)
    requires Stamped(v) && SnapshotOk(candidate) && h.endsFirst
    ensures Stamped(Swapped(v, candidate, h))
    ensures Disagrees(Swapped(v, candidate, h)) <==> Strands(h) && !Matches(candidate, v.active)
  {
    if !(Started(candidate, h.candidate) && h.pointerReported) {
      var quiet := v.(queue := h.posted);
      RollbackAgreement(quiet, candidate, h);
      RollbackAgreement(quiet.(store := Flipped(v.store, h)), candidate, h);
    }
  }

  /** After an activation that got as far as stopping the recogniser, the loaded table disagrees with the
      active one exactly when the answers strand a candidate whose actions differ, whatever was loaded
      before; any other activation leaves agreement and disagreement as they were. */
  lemma {:induction false} ActivationAgreement(v: Voice, candidate: Snapshot, h: Hardware)
    requires Stamped(v)
    ensures Stamped(Activated(v, candidate, h))
    ensures Disagrees(Activated(v, candidate, h))
            <==> if Reloads(v, candidate, h) then Strands(h) && !Matches(candidate, v.active) else Disagrees(v)
  {
    if Reloads(v, candidate, h) {
      SwapAgreement(v.(store := Staged(v, candidate, h)), candidate, h);
    }
  }

  // What every turn keeps.

  /** A queued command was recognised with the table that is loaded, under the revision that is active: a
      reload of the table empties the queue of commands. */
  predicate EventOk(m: Message, v: Voice) {
    m.Speech? && m.event.kind.Command? ==>
      v.recognizer.Running? && m.event.table == v.recognizer.table && m.event.revision == v.active.revision
      && InTable(m.event.commandId, m.event.table)
  }

  predicate VoiceInv(v: Voice) {
    Stamped(v)
    && (v.recognizer.Running? ==> TableOk(v.recognizer.table))
    && forall k | 0 <= k < |v.queue| :: EventOk(v.queue[k], v)
  }

  lemma {:induction false} LoadedTableOk(v: Voice, candidate: Snapshot, h: Hardware)
    requires Stamped(v) && (v.recognizer.Running? ==> TableOk(v.recognizer.table))
    ensures var after := Activated(v, candidate, h);
            after.recognizer.Running? ==> TableOk(after.recognizer.table)
  {
  }

  lemma {:induction false} ReloadEmptiesQueue(v: Voice, candidate: Snapshot, h: Hardware)
    ensures var after := Activated(v, candidate, h);
            if Reloads(v, candidate, h) then after.queue == h.posted else after == v.(store := after.store)
  {
  }

  /** An activation keeps the invariant whatever the answers. */
  lemma {:induction false} ActivationKeepsVoiceInv(v: Voice, candidate: Snapshot, h: Hardware)
    requires VoiceInv(v) && HardwareSound(h)
    ensures VoiceInv(Activated(v, candidate, h))
  {
    ActivationAgreement(v, candidate, h);
    LoadedTableOk(v, candidate, h);
    ReloadEmptiesQueue(v, candidate, h);
    if !Reloads(v, candidate, h) {
      var after := Activated(v, candidate, h);
      assert forall k | 0 <= k < |v.queue| :: EventOk(v.queue[k], v) ==> EventOk(v.queue[k], after);
    }
  }

  /** A candidate that an activation strands is newer than the table that stays active. */
  lemma {:induction false} StrandedIsNewer(v: Voice, candidate: Snapshot, h: Hardware)
    requires Stamped(v) && Disagrees(Activated(v, candidate, h))
    ensures Activated(v, candidate, h).active == v.active
    ensures Disagrees(v) || v.active.revision < candidate.revision
  {
    ActivationAgreement(v, candidate, h);
    ReloadEmptiesQueue(v, candidate, h);
  }

  // What an activation and a boot end with.

  predicate Works(a: StartAnswers) {
    a.begins && a.phrasesKept
  }

  /** Exactly when an update succeeds: it is the active table over again, or it is valid and newer, its bytes
      are in the spare slot, the recogniser stops and starts with it, and the slot number is written. */
  lemma {:induction false} ActivatesExactly(v: Voice, candidate: Snapshot, h: Hardware)
    ensures Activates(v, candidate, h)
            <==> v.prefsReady && SnapshotOk(candidate)
                 && (candidate == v.active
                     || (candidate.revision > v.active.revision && v.store.slot <= 1
                         && h.bytesReported && (h.bytesTake || Stored(v.store, 1 - v.store.slot) == Some(candidate))
                         && h.endsFirst && Works(h.candidate) && h.pointerReported))
  {
  }

  /** What an update writes: nothing unless the candidate is valid and newer and the storage usable; then its
      bytes to the spare slot, and the slot number only after the recogniser has taken the candidate. */
  lemma {:induction false} ActivationWrites(v: Voice, candidate: Snapshot, h: Hardware)
    ensures var trail, store := StoreTrail(v, candidate, h), v.store;
            var staged := if !h.bytesTake then store
                          else if store.slot == 0 then store.(voice1 := Some(candidate))
                          else store.(voice0 := Some(candidate));
            if v.prefsReady && SnapshotOk(candidate) && candidate.revision > v.active.revision && store.slot <= 1 then
              trail != [] && trail[0] == staged && |trail| <= 2
              && (|trail| == 2 <==>
                  h.bytesReported && (h.bytesTake || Stored(store, 1 - store.slot) == Some(candidate))
                  && h.endsFirst && Works(h.candidate))
              && (|trail| == 2 ==> trail[1] == if h.pointerTakes then staged.(slot := 1 - store.slot) else staged)
            else trail == [] && Activated(v, candidate, h) == v
  {
  }

  /** A failed update that had stopped the recogniser restores the old table whenever that starts; the built-in
      commands take over exactly when it does not and they do; otherwise the active table and the stamp stay,
      and the last restart that began, or else the candidate, is what is loaded unless it could be ended. */
  lemma {:induction false} FailedActivationRestores(v: Voice, candidate: Snapshot, h: Hardware)
    requires Stamped(v) && Reloads(v, candidate, h) && !Activates(v, candidate, h)
    ensures var after := Activated(v, candidate, h);
            after == v.(store := after.store, queue := h.posted, recognizer := after.recognizer,
                        active := after.active, callbackRevision := after.callbackRevision)
            && after.active == (if !Works(h.active) && Works(h.builtins) then BUILTINS else v.active)
            && after.callbackRevision == after.active.revision
            && if Works(h.active) then after.recognizer == Running(v.active, false)
               else if Works(h.builtins) then after.recognizer == Running(BUILTINS, false)
               else if h.builtins.begins then
                 after.recognizer == if h.builtins.ends then Stopped else Running(BUILTINS, false)
               else if h.active.begins then
                 after.recognizer == if h.active.ends then Stopped else Running(v.active, false)
               else after.recognizer == if Strands(h) then Running(candidate, false) else Stopped
  {
  }

  /** What a boot can read: the slot that is named holds a valid table. */
  lemma {:induction false} BootableExactly(store: Store, t: Snapshot)
    ensures Bootable(store) == Some(t)
            <==> SnapshotOk(t) && ((store.slot == 0 && store.voice0 == Some(t))
                                   || (store.slot == 1 && store.voice1 == Some(t)))
  {
  }

  /** A boot loads the stored table whenever there is one that starts, and otherwise the built-in commands if
      they start, which they are given a second time; there is no voice service exactly when no start works. */
  lemma {:induction false} BootExactly(store: Store, prefsReady: bool, saved: StartAnswers, builtins: StartAnswers)
    ensures var booted := Boot(store, prefsReady, saved, builtins);
            (booted.None? <==> !Works(saved) && !Works(builtins))
            && (booted.Some? ==>
                  var v := booted.value;
                  v.callbackRevision == v.active.revision && v.recognizer == Running(v.active, false)
                  && v.store == store && v.prefsReady == prefsReady
                  && v.queue == [] && !v.listening && v.startedAt == 0 && v.pending.None?
                  && if prefsReady && Bootable(store).Some? && Works(saved) then v.active == Bootable(store).value
                     else v.active == BUILTINS)
  {
  }

  /** The next boot after a successful update loads the updated table, if its start works then. */
  lemma {:induction false} ActivatedIsBooted(v: Voice, candidate: Snapshot, h: Hardware,
                                             saved: StartAnswers, builtins: StartAnswers)
    requires HardwareSound(h) && Activates(v, candidate, h) && candidate != v.active && Works(saved)
    ensures var booted := Boot(Activated(v, candidate, h).store, true, saved, builtins);
            booted.Some? && booted.value.active == candidate && booted.value.recognizer == Running(candidate, false)
  {
    CrashRecovery(v, candidate, h);
    BootExactly(Activated(v, candidate, h).store, true, saved, builtins);
  }

  // What a turn of the worker does with a speech event.

  /** A command the worker follows: while listening, detected less than 5760 ms after the session began, and
      wake-word mode can be restored. */
  predicate Heard(v: Voice, t: Turn, event: SpeechEvent) {
    event.kind.Command? && v.listening && (event.detectedAt - v.startedAt) % 0x1_0000_0000 < 5760
    && t.modeSet && v.recognizer.Running?
  }

  /** What a speech event makes the worker ask for: id 1 the wake packet, 8 a synchronisation, 2 to 7 a media
      key, 100 to 111 the active table's action at that index, if the event carries its revision. */
  lemma {:induction false} SpeechOutputExactly(v: Voice, t: Turn, event: SpeechEvent)
    requires v.queue != [] && v.queue[0] == Speech(event)
    ensures var id, output, heard := event.commandId, Received(v, t).1, Heard(v, t, event);
            var custom := heard && 100 <= id < 112 && event.revision == v.active.revision
                          && id - 100 < |v.active.commands|;
            (output == SendWake <==> heard && id == 1)
            && (output == RequestSync <==> heard && id == 8)
            && (output.SubmitMedia? <==> heard && 2 <= id <= 7)
            && (output.SubmitMedia? ==> output.index == id - 2)
            && (output.SubmitCustom? <==> custom)
            && (custom ==> output == SubmitCustom(v.active.commands[id - 100].actionId, v.active.revision, event))
            && !output.Notified?
  {
  }

  /** What a speech event does to the session and the mode: a wake word begins a session unless one is open,
      if command mode can be set; a command or a timeout ends it and restores wake-word mode.  Nothing else
      changes. */
  lemma {:induction false} SpeechSessionExactly(v: Voice, t: Turn, event: SpeechEvent)
    requires v.queue != [] && v.queue[0] == Speech(event)
    ensures var after, switched := Received(v, t).0, t.modeSet && v.recognizer.Running?;
            after == v.(queue := v.queue[1..], startedAt := after.startedAt, listening := after.listening,
                        recognizer := after.recognizer)
            && if event.kind.Wakeword? && v.listening then after == v.(queue := v.queue[1..])
               else
                 after.listening == (event.kind.Wakeword? && switched)
                 && after.startedAt == (if event.kind.Wakeword? then t.now else v.startedAt)
                 && after.recognizer == if switched then Running(v.recognizer.table, event.kind.Wakeword?)
                                        else v.recognizer
  {
  }

  lemma {:induction false} BootVoiceInv(store: Store, prefsReady: bool, saved: StartAnswers, builtins: StartAnswers)
    requires Boot(store, prefsReady, saved, builtins).Some?
    ensures VoiceInv(Boot(store, prefsReady, saved, builtins).value)
    ensures !Disagrees(Boot(store, prefsReady, saved, builtins).value)
  {
  }

  lemma {:induction false} DetectionKeepsVoiceInv(v: Voice, kind: EventKind, commandId: int, at: Tick)
    requires VoiceInv(v) && v.recognizer.Running?
    requires kind.Command? ==> InTable(commandId, v.recognizer.table)
    ensures VoiceInv(Detected(v, kind, commandId, at))
  {
    var v' := Detected(v, kind, commandId, at);
    assert forall k | 0 <= k < |v.queue| :: v'.queue[k] == v.queue[k] && EventOk(v.queue[k], v);
  }

  /** A turn that takes a speech event keeps the invariant.  A custom command that is submitted was recognised
      with the loaded table, at an index of it, and has the submitted action at that index in the active
      table, under the active revision. */
  lemma {:induction false} SpeechTurnKeepsVoiceInv(v: Voice, t: Turn)
    requires VoiceInv(v) && v.queue != [] && v.queue[0].Speech?
    ensures VoiceInv(Received(v, t).0)
    ensures Received(v, t).1.SubmitCustom? ==>
              var out := Received(v, t).1;
              var index := out.event.commandId - CUSTOM_COMMAND_FIRST_ID;
              out.revision == out.event.revision == v.active.revision && v.queue[0] == Speech(out.event)
              && 0 <= index < |v.active.commands| && v.active.commands[index].actionId == out.actionId
              && v.recognizer.Running? && out.event.table == v.recognizer.table
              && index < |v.recognizer.table.commands|
  {
    var after := Received(v, t).0;
    assert EventOk(v.queue[0], v);
    assert after.queue == v.queue[1..];
    assert forall k | 0 <= k < |after.queue| :: after.queue[k] == v.queue[k + 1] && EventOk(v.queue[k + 1], v);
  }

  /** A turn that takes an update, run at once or deferred, keeps the invariant. */
  lemma {:induction false} UpdateTurnKeepsVoiceInv(v: Voice, t: Turn)
    requires VoiceInv(v) && v.queue != [] && v.queue[0].Update? && HardwareSound(t.hardware)
    ensures VoiceInv(Received(v, t).0)
  {
    var rest := v.(queue := v.queue[1..]);
    assert forall k | 0 <= k < |rest.queue| :: rest.queue[k] == v.queue[k + 1] && EventOk(v.queue[k + 1], v);
    ActivationKeepsVoiceInv(rest, v.queue[0].config, t.hardware);
  }

  // What a stranded candidate does.

  const OLD_TABLE := Snapshot(1, 1, [VoiceCommand("go", "a")])
  const NEW_TABLE := Snapshot(1, 2, [VoiceCommand("stop", "b")])

  const STARTS := StartAnswers(true, true, true)
  const FAILS := StartAnswers(false, false, false)

  /** The candidate starts, the slot number cannot be written, and neither stopping nor a restart works. */
  const STRANDING := Hardware(true, true, true, [], STARTS, false, false, false, FAILS, FAILS)

  const BEFORE_STRANDING :=
    Voice(Store(0, Some(OLD_TABLE), None), true, OLD_TABLE, 1, Running(OLD_TABLE, false), [], false, 0, None)

  const STRANDED :=
    BEFORE_STRANDING.(store := Store(0, Some(OLD_TABLE), Some(NEW_TABLE)), recognizer := Running(NEW_TABLE, false))

  lemma {:induction false} TablesAreValid()
    ensures SnapshotOk(OLD_TABLE) && SnapshotOk(NEW_TABLE)
  {
    assert Lowercase("go") == "go" && Lowercase("stop") == "stop";
    assert "go" !in RESERVED && "stop" !in RESERVED;
  }

  /** With the old table active and the new one stranded, the phrase recognised at index 0 of the new table
      submits the old table's action, under the old revision. */
  lemma {:induction false} StrandedSubmitsOldAction()
    ensures HardwareSound(STRANDING) && Strands(STRANDING)
    ensures Activated(BEFORE_STRANDING, NEW_TABLE, STRANDING) == STRANDED && Disagrees(STRANDED)
    ensures var turn := Turn(0, true, STRANDING);
            var woken := Received(Detected(STRANDED, Wakeword, 0, 0), turn).0;
            woken.recognizer == Running(NEW_TABLE, true)
            && var (after, output) := Received(Detected(woken, Command, CUSTOM_COMMAND_FIRST_ID, 0), turn);
               output.SubmitCustom? && output.actionId == "a" && output.revision == 1
               && output.event.table.commands[0].actionId == "b"
  {
    TablesAreValid();
    assert NEW_TABLE.commands[0].actionId == "b" && OLD_TABLE.commands[0].actionId == "a";
    var turn := Turn(0, true, STRANDING);
    var wake := SpeechEvent(Wakeword, 0, 0, 1, NEW_TABLE);
    assert [] + [Speech(wake)] == [Speech(wake)] && [Speech(wake)][1..] == [];
    var woken := Received(Detected(STRANDED, Wakeword, 0, 0), turn).0;
    assert woken == STRANDED.(recognizer := Running(NEW_TABLE, true), listening := true);
    var event := SpeechEvent(Command, CUSTOM_COMMAND_FIRST_ID, 0, 1, NEW_TABLE);
    assert [] + [Speech(event)] == [Speech(event)];
  }
}

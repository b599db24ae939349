/** Runs of the whole system from its first start: save an action, publish its phrase, fetch and activate the
    table by voice, speak the phrase; the same request again after a restart; and a phrase spoken to a
    stranded table.  They show that the claims about every run speak of runs in which something happens. */
module Scenario {
  import opened Common
  import opened Domain
  import opened Config
  import opened Dispatch
  import opened VoiceService
  import opened EndToEnd

  ghost predicate Reachable(s: System) {
    exists states: seq<System>, events: seq<Event> :: IsRun(states, events) && states[|events|] == s
  }

  lemma {:induction false} RunExtends(states: seq<System>, events: seq<Event>, s: System, e: Event, after: System)
    requires IsRun(states, events) && states[|events|] == s && Enabled(s, e) && after == Apply(s, e)
    ensures IsRun(states + [after], events + [e])
  {
    var more, further := states + [after], events + [e];
    forall i | 0 <= i < |further|
      ensures Enabled(more[i], further[i]) && more[i + 1] == Apply(more[i], further[i])
    {
      if i < |events| {
        assert Enabled(states[i], events[i]) && states[i + 1] == Apply(states[i], events[i]);
        assert more[i] == states[i] && more[i + 1] == states[i + 1] && further[i] == events[i];
      } else {
        assert more[i] == s && more[i + 1] == after && further[i] == e;
      }
    }
    assert more[0] == states[0];
  }

  lemma {:induction false} Step(s: System, e: Event)
    requires Reachable(s) && Enabled(s, e)
    ensures Reachable(Apply(s, e))
  {
    var after := Apply(s, e);
    var states: seq<System>, events: seq<Event> :| IsRun(states, events) && states[|events|] == s;
    RunExtends(states, events, s, e, after);
    assert (states + [after])[|events + [e]|] == after;
  }

  const DEFINITION := Definition("notepad", true)
  const ACTION := CustomAction("a", true, Some("go"), DEFINITION)
  const COMMANDS: seq<ParsedCommand> := [VoiceCommand("go", "a")]
  const SAVED := DEFAULT_CONFIG.(actions := [ACTION], actionsRevision := 1)
  const TABLE := PublishedVoiceConfig(1, 1, 1, COMMANDS)
  const APPLIED := SAVED.(published := Some(TABLE))
  const MEANINGS := map[1 := D.Meaning(TABLE, [ACTION])]

  function Settled(c: AppConfig, meanings: map<nat, D.Meaning>, arrivals: nat): D.State {
    D.State(c, c, c, D.Free, map[], map[], arrivals, [], meanings)
  }

  const PUBLISHED := INITIAL.(daemon := Settled(APPLIED, MEANINGS, 0))

  lemma {:induction false} InitialReachable()
    ensures Reachable(INITIAL)
  {
    assert IsRun([INITIAL], []);
  }

  lemma {:induction false} Write(s: System, op: D.WriteOp, c: AppConfig)
    requires Reachable(s) && s.daemon.writer.Free? && s.daemon.inFlight == map[] && !op.Acknowledge?
    requires D.Candidate(s.daemon.shared, op) == Some(c)
    ensures var begun := D.Apply(s.daemon, D.BeginWrite(op, true));
            Reachable(s.(daemon := begun.(dispatcher := c, shared := c, writer := D.Free)))
  {
    Step(s, Pc(D.BeginWrite(op, true)));
    var saved := Apply(s, Pc(D.BeginWrite(op, true)));
    Step(saved, Pc(D.ReplaceDispatcher));
    var replaced := Apply(saved, Pc(D.ReplaceDispatcher));
    Step(replaced, Pc(D.PublishShared));
  }

  lemma {:induction false} Publish()
    ensures Reachable(PUBLISHED)
  {
    InitialReachable();
    D.GoIsPhrase();
    D.OneCommand(ACTION);
    Write(INITIAL, D.SaveActions([ACTION]), SAVED);
    PublishingMakesProgress(SAVED);
    var s := INITIAL.(daemon := Settled(SAVED, map[], 0));
    Write(s, D.ApplyVoiceConfig, APPLIED);
    assert map[][1 := D.Meaning(TABLE, [ACTION])] == MEANINGS;
  }

  // On the board.

  const GOOD := StartAnswers(true, true, true)
  const HARDWARE := Hardware(true, true, true, [], GOOD, true, true, true, GOOD, GOOD)
  const TURN := Turn(0, true, HARDWARE)

  /** The voice service at rest, with the active and the loaded table. */
  function Ready(store: Store, active: Snapshot, loaded: Snapshot): Voice {
    Voice(store, true, active, active.revision, Running(loaded, false), [], false, 0, None)
  }

  lemma {:induction false} Hear(s: System, v: Voice, kind: EventKind, commandId: int)
    requires Reachable(s) && s.board == On(v, Resting, []) && v.queue == [] && v.recognizer.Running?
    requires kind.Command? ==> v.recognizer.commandMode && InTable(commandId, v.recognizer.table)
    ensures var event := SpeechEvent(kind, commandId, 0, v.callbackRevision, v.recognizer.table);
            Reachable(s.(board := On(v.(queue := [Speech(event)]), Resting, [])))
  {
    var event := SpeechEvent(kind, commandId, 0, v.callbackRevision, v.recognizer.table);
    assert v.queue + [Speech(event)] == [Speech(event)];
    Step(s, Detect(kind, commandId, 0));
  }

  lemma {:induction false} Take(s: System, v: Voice, event: SpeechEvent, id: string)
    requires Reachable(s) && s.board == On(v.(queue := [Speech(event)]), Resting, []) && v.queue == []
    requires v.pending.None?
    ensures var (after, output) := Received(v.(queue := [Speech(event)]), TURN);
            Reachable(s.(board := Effect(On(after, Resting, []), output, id, 0, true)))
  {
    assert [Speech(event)][1..] == [];
    Step(s, TurnMessage(TURN, id, 0, true));
  }

  /** The wake word, a command, and the two turns of the worker that take them. */
  lemma {:induction false} Speak(s: System, store: Store, active: Snapshot, loaded: Snapshot,
                                 commandId: int, id: string)
    requires Reachable(s) && s.board == On(Ready(store, active, loaded), Resting, [])
    requires InTable(commandId, loaded) && CommandFromId(commandId) != Invalid
    ensures var event := SpeechEvent(Command, commandId, 0, active.revision, loaded);
            Reachable(s.(board := Effect(s.board, Submission(active, event), id, 0, true)))
  {
    var v := Ready(store, active, loaded);
    var wake := SpeechEvent(Wakeword, 0, 0, active.revision, loaded);
    Hear(s, v, Wakeword, 0);
    var s1 := s.(board := On(v.(queue := [Speech(wake)]), Resting, []));
    Take(s1, v, wake, "");
    var listening := v.(recognizer := Running(loaded, true), listening := true);
    assert [Speech(wake)][1..] == [];
    assert Received(v.(queue := [Speech(wake)]), TURN) == (listening, Silent);
    var s2 := s.(board := On(listening, Resting, []));
    Hear(s2, listening, Command, commandId);
    var event := SpeechEvent(Command, commandId, 0, active.revision, loaded);
    var s3 := s.(board := On(listening.(queue := [Speech(event)]), Resting, []));
    assert [Speech(event)][1..] == [];
    Take(s3, listening, event, id);
    assert Received(listening.(queue := [Speech(event)]), TURN) == (v, Submission(active, event));
  }

  const FETCHED := Snapshot(1, 1, COMMANDS)
  const FILLED := Store(1, None, Some(FETCHED))

  lemma {:induction false} FetchedIsUsable()
    ensures SnapshotOk(FETCHED) && Usable(TABLE) && EndToEnd.Candidate(TABLE) == FETCHED
    ensures Valid(APPLIED) && Serve(APPLIED) == Served(TABLE)
  {
    D.GoIsPhrase();
    D.OneCommand(ACTION);
    PublishingMakesProgress(SAVED);
    ServedTableFits(APPLIED);
  }

  lemma {:induction false} PowerUp()
    ensures Reachable(PUBLISHED.(board := On(Ready(BLANK_STORE, BUILTINS, BUILTINS), Resting, [])))
  {
    Publish();
    var on := PowerOn(true, GOOD, GOOD);
    Step(PUBLISHED, on);
    assert Boot(BLANK_STORE, true, GOOD, GOOD) == Some(Ready(BLANK_STORE, BUILTINS, BUILTINS));
  }

  lemma {:induction false} SayUpdate(s: System, store: Store, active: Snapshot)
    requires Reachable(s) && s.board == On(Ready(store, active, active), Resting, [])
    ensures Reachable(s.(board := On(Ready(store, active, active), Resting, [SyncIntent])))
  {
    Speak(s, store, active, active, SYNC_COMMAND_ID, "");
    assert [] + [SyncIntent] == [SyncIntent];
  }

  /** The HTTPS worker fetches the table and hands it over. */
  lemma {:induction false} Fetch(s: System, v: Voice, table: PublishedVoiceConfig)
    requires Reachable(s) && s.board == On(v, Resting, [SyncIntent]) && v.queue == []
    requires Serve(s.daemon.shared) == Served(table) && Usable(table)
    ensures var candidate := EndToEnd.Candidate(table);
            Reachable(s.(board := On(v.(queue := [Update(candidate)]), Waiting(candidate), [])))
  {
    assert [SyncIntent][1..] == [];
    Step(s, StartJob(false));
    var s1 := s.(board := On(v, Fetching, []));
    Step(s1, ServeTable);
    var s2 := s.(board := On(v, Fetched(table), []));
    var update := Update(EndToEnd.Candidate(table));
    assert [] + [update] == [update];
    Step(s2, TakeTable(true));
  }

  /** The voice worker activates it and answers; the acknowledgement is not sent. */
  lemma {:induction false} Activate(s: System, v: Voice, candidate: Snapshot, h: Hardware)
    requires Reachable(s) && s.board == On(v.(queue := [Update(candidate)]), Waiting(candidate), [])
    requires v.queue == [] && v.pending.None? && !v.listening && HardwareSound(h)
    ensures Reachable(s.(board := On(Activated(v, candidate, h), Resting, [])))
  {
    assert [Update(candidate)][1..] == [];
    var event := TurnMessage(Turn(0, true, h), "", 0, true);
    Step(s, event);
    var s1 := s.(board := On(Activated(v, candidate, h), Answered(candidate, Activates(v, candidate, h)), []));
    assert Received(v.(queue := [Update(candidate)]), event.turn)
        == (Activated(v, candidate, h), Notified(candidate, Activates(v, candidate, h)));
    assert Apply(s, event) == s1;
    Step(s1, FinishSync(false));
  }

  lemma {:induction false} FirstActivation()
    ensures Activated(Ready(BLANK_STORE, BUILTINS, BUILTINS), FETCHED, HARDWARE) == Ready(FILLED, FETCHED, FETCHED)
  {
    FetchedIsUsable();
  }

  lemma {:induction false} FirstFetch()
    ensures var v := Ready(BLANK_STORE, BUILTINS, BUILTINS);
            Reachable(PUBLISHED.(board := On(v.(queue := [Update(FETCHED)]), Waiting(FETCHED), [])))
  {
    PowerUp();
    FetchedIsUsable();
    var v := Ready(BLANK_STORE, BUILTINS, BUILTINS);
    SayUpdate(PUBLISHED.(board := On(v, Resting, [])), BLANK_STORE, BUILTINS);
    Fetch(PUBLISHED.(board := On(v, Resting, [SyncIntent])), v, TABLE);
  }

  /** Power on, say "update", and let the HTTPS worker fetch the table and the voice worker activate it. */
  lemma {:induction false} Synchronise()
    ensures Reachable(PUBLISHED.(board := On(Ready(FILLED, FETCHED, FETCHED), Resting, [])))
  {
    FirstFetch();
    FirstActivation();
    var v := Ready(BLANK_STORE, BUILTINS, BUILTINS);
    Activate(PUBLISHED.(board := On(v.(queue := [Update(FETCHED)]), Waiting(FETCHED), [])), v, FETCHED, HARDWARE);
  }

  const REQUEST := Recognised(CustomActionRequest("r", "a", 1, 0, REQUEST_LIFETIME_MS), 0, FETCHED)

  lemma {:induction false} Ask() returns (s: System)
    ensures Reachable(s) && REQUEST in s.requests && s.daemon == PUBLISHED.daemon && s.executed == []
  {
    Synchronise();
    var board := On(Ready(FILLED, FETCHED, FETCHED), Resting, []);
    var s0 := PUBLISHED.(board := board);
    Speak(s0, FILLED, FETCHED, FETCHED, CUSTOM_COMMAND_FIRST_ID, "r");
    var event := SpeechEvent(Command, CUSTOM_COMMAND_FIRST_ID, 0, 1, FETCHED);
    assert Submission(FETCHED, event) == SubmitCustom("a", 1, event) by {
      assert FETCHED.commands[0].actionId == "a";
    }
    assert [] + [CustomIntent(REQUEST)] == [CustomIntent(REQUEST)];
    var s1 := PUBLISHED.(board := board.(intents := [CustomIntent(REQUEST)]));
    assert Effect(board, SubmitCustom("a", 1, event), "r", 0, true) == s1.board;
    Step(s1, StartJob(false));
    s := Apply(s1, StartJob(false));
  }

  lemma {:induction false} RequestResolves()
    ensures Resolve(APPLIED, REQUEST.request) == Ok(DEFINITION)
  {
    assert COMMANDS[0].actionId == "a";
  }

  /** There is a run in which the board's request for the spoken phrase is executed. */
  lemma {:induction false} SomethingIsExecuted() returns (s: System)
    ensures Reachable(s) && s.executed == [CustomRun(REQUEST.request, DEFINITION, 0)]
    ensures REQUEST in s.requests && s.daemon.disk == APPLIED && s.daemon.meanings == MEANINGS
  {
    var asked := Ask();
    RequestResolves();
    Step(asked, Deliver(REQUEST, true, 0, true));
    s := Apply(asked, Deliver(REQUEST, true, 0, true));
  }

  /** And one in which it is executed twice: the daemon restarts within the request's lifetime and forgets the
      reservation, and the request arrives again. */
  lemma {:induction false} ExecutedTwiceAcrossRestart() returns (s: System)
    ensures Reachable(s)
    ensures s.executed == [CustomRun(REQUEST.request, DEFINITION, 0), CustomRun(REQUEST.request, DEFINITION, 1)]
  {
    var once := SomethingIsExecuted();
    Step(once, Pc(D.Restart(true)));
    var restarted := Apply(once, Pc(D.Restart(true)));
    RequestResolves();
    Step(restarted, Deliver(REQUEST, true, 1, true));
    s := Apply(restarted, Deliver(REQUEST, true, 1, true));
  }

  // A stranded table.

  const STOP_ACTION := CustomAction("b", true, Some("stop"), DEFINITION)
  const STOP_COMMANDS: seq<ParsedCommand> := [VoiceCommand("stop", "b")]
  const SAVED_AGAIN := APPLIED.(actions := [STOP_ACTION], actionsRevision := 2)
  const TABLE_AGAIN := PublishedVoiceConfig(1, 2, 2, STOP_COMMANDS)
  const APPLIED_AGAIN := SAVED_AGAIN.(published := Some(TABLE_AGAIN))
  const NEWER := Snapshot(1, 2, STOP_COMMANDS)

  lemma {:induction false} NewerIsUsable()
    ensures D.Candidate(APPLIED, D.SaveActions([STOP_ACTION])) == Some(SAVED_AGAIN)
    ensures D.Candidate(SAVED_AGAIN, D.ApplyVoiceConfig) == Some(APPLIED_AGAIN)
    ensures Usable(TABLE_AGAIN) && SnapshotOk(NEWER) && Serve(APPLIED_AGAIN) == Served(TABLE_AGAIN)
  {
    SavedAgainIsValid();
    PublishingMakesProgress(SAVED_AGAIN);
    ServedTableFits(APPLIED_AGAIN);
  }

  lemma {:induction false} SavedAgainIsValid()
    ensures Valid(SAVED_AGAIN) && EnabledCommands([STOP_ACTION]) == STOP_COMMANDS && SnapshotOk(NEWER)
  {
    D.GoIsPhrase();
    D.OneCommand(ACTION);
    assert Lowercase("stop") == "stop" && "stop" !in RESERVED;
    D.OneCommand(STOP_ACTION);
  }

  lemma {:induction false} PublishAgain(s: System) returns (after: System)
    requires Reachable(s) && s.daemon.shared == APPLIED && s.daemon.writer.Free? && s.daemon.inFlight == map[]
    ensures Reachable(after) && after == s.(daemon := after.daemon)
    ensures after.daemon.shared == APPLIED_AGAIN && after.daemon.dispatcher == APPLIED_AGAIN
  {
    NewerIsUsable();
    Write(s, D.SaveActions([STOP_ACTION]), SAVED_AGAIN);
    var saved := s.(daemon := D.Apply(s.daemon, D.BeginWrite(D.SaveActions([STOP_ACTION]), true)).(
      dispatcher := SAVED_AGAIN, shared := SAVED_AGAIN, writer := D.Free));
    Write(saved, D.ApplyVoiceConfig, APPLIED_AGAIN);
    after := saved.(daemon := D.Apply(saved.daemon, D.BeginWrite(D.ApplyVoiceConfig, true)).(
      dispatcher := APPLIED_AGAIN, shared := APPLIED_AGAIN, writer := D.Free));
  }

  const STRANDED_STORE := Store(1, Some(NEWER), Some(FETCHED))

  lemma {:induction false} StrandsNewer()
    ensures var v := Ready(FILLED, FETCHED, FETCHED);
            Activated(v, NEWER, STRANDING) == Ready(STRANDED_STORE, FETCHED, NEWER)
  {
    FetchedIsUsable();
    NewerIsUsable();
  }

  /** Publish again, and strand the new table. */
  lemma {:induction false} Strand() returns (s: System)
    ensures Reachable(s) && s.board == On(Ready(STRANDED_STORE, FETCHED, NEWER), Resting, [])
    ensures s.daemon.dispatcher == APPLIED_AGAIN
  {
    Synchronise();
    NewerIsUsable();
    StrandsNewer();
    var v := Ready(FILLED, FETCHED, FETCHED);
    var again := PublishAgain(PUBLISHED.(board := On(v, Resting, [])));
    SayUpdate(again, FILLED, FETCHED);
    Fetch(again.(board := On(v, Resting, [SyncIntent])), v, TABLE_AGAIN);
    Activate(again.(board := On(v.(queue := [Update(NEWER)]), Waiting(NEWER), [])), v, NEWER, STRANDING);
    s := again.(board := On(Ready(STRANDED_STORE, FETCHED, NEWER), Resting, []));
  }

  const MISRECOGNISED :=
    Recognised(CustomActionRequest("m", "a", 1, 0, REQUEST_LIFETIME_MS), 0, NEWER)

  /** There is a run in which the board sends such a request: the phrase "stop" of the stranded table asks for
      the action of "go". */
  lemma {:induction false} MisrecognisedIsSent() returns (s: System)
    ensures Reachable(s) && MISRECOGNISED in s.requests && !RecognisedAs(MISRECOGNISED)
  {
    var stranded := Strand();
    var board := stranded.board;
    assert FETCHED.commands[0].actionId == "a" && NEWER.commands[0].actionId == "b";
    Speak(stranded, STRANDED_STORE, FETCHED, NEWER, CUSTOM_COMMAND_FIRST_ID, "m");
    var event := SpeechEvent(Command, CUSTOM_COMMAND_FIRST_ID, 0, 1, NEWER);
    assert Submission(FETCHED, event) == SubmitCustom("a", 1, event);
    assert [] + [CustomIntent(MISRECOGNISED)] == [CustomIntent(MISRECOGNISED)];
    var s1 := stranded.(board := board.(intents := [CustomIntent(MISRECOGNISED)]));
    assert Effect(board, SubmitCustom("a", 1, event), "m", 0, true) == s1.board;
    Step(s1, StartJob(false));
    s := Apply(s1, StartJob(false));
  }
}

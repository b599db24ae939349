# PC remote: a verified model of the voice-action protocol and its timed machines

The repository turns spoken phrases into actions on a Windows PC. A daemon on the PC keeps the
configured actions and publishes a table of phrases; an ESP32 board fetches the table, rebuilds its
speech recogniser with it, recognises phrases, and asks the daemon to execute the action that a phrase
names. This project models that path from both ends, proves what holds in every run of the whole system,
and adds the firmware's timed state machines and the printers and parsers that have an exact
specification.

## How the model is built

- Code that updates state in place is a class or a method with loops, each tied by its contract to a
  specification function; what the code is for is then proved about the specification functions, over
  whole runs.
- Calls to the outside (storage writes, the recogniser, sockets, the clock, the upload library) are
  parameters: each step takes the answers it gets, and the claims hold for every answer allowed below.
- The board's counter is 32 bits wide and wraps. Machines read the wrapped counter (`Clock.Millis`); the
  claims are about true, unbounded time.

| file | what it models |
|---|---|
| `Common`, `Clock`, `CStrings` | result types, the wrapping counter, NUL-terminated buffers |
| `Domain`, `VoiceConfigPolicy` | the daemon's set-based test of a phrase table, the firmware's pairwise test over buffers, their agreement |
| `Config` | the daemon's configuration, publishing, the size of the served table |
| `ReplayCache`, `Dispatch` | the bounded memory of request ids, and the dispatcher |
| `Daemon`, `WindowsRuntime` | the three copies of the configuration as a transition system, and the management operations that drive it |
| `SpeechTable`, `VoiceSession`, `VoiceService` | the recogniser's table, the listening session, the two storage slots, activation with roll-back, the worker |
| `EndToEnd`, `Scenario` | both machines and the messages between them; runs in which commands are executed, repeated and misrecognised |
| `OtaButton`, `OtaWorker`, `Indicator`, `MqttWake` | the timed machines |
| `WindowsQuoting`, `IpcFraming`, `JsonEscape` | printers and their parsers |

## What is assumed of the environment

- A write of one key in the board's storage is atomic, and a write reported as done has been done; a write
  reported as failed may or may not have taken effect. Replacing the daemon's file is atomic, and what was
  saved can be read at the next start (what happens otherwise is proved separately).
- The recogniser reports a command only in command mode and only with an id of its loaded table, starts in
  wake-word mode, and calls back only while it runs.
- Tokio's write lock excludes readers, and mutexes are not poisoned. Every request handler can be dropped
  while it waits (the two-second limit, or the client going away): a media or custom handler while the
  executor works, an acknowledgement while it waits for the dispatcher. Work that was handed to the executor
  goes on without its handler. The management operations are not dropped.
- An execution ends when the executor has pressed the key or started the program; what a started script does
  afterwards is not part of it.
- A message that was sent arrives at any later time, any number of times, or never. The board is the only
  client that acknowledges tables or asks for custom actions.
- `ArduinoOTA.handle()` does nothing, reports an error, or runs start, progress callbacks, and then an end
  (which restarts the board) or an error.
- Consecutive readings of a clock with nothing between them are one reading.

## Where code and expectation differ

- **Unreadable configuration file.** `load` falls back to the default configuration, so revisions start
  over. `Daemon.RestartAgreesWithDisk` says exactly when memory then agrees with the file;
  `Daemon.UnreadableFileReusesRevision` is a run in which one request means two different definitions.
- **An execution can outlive the configuration that admitted it.** A test of the dispatcher
  (daemon/src/application.rs:594-624) has applying a configuration wait for a dispatch in progress; it waits
  for the handler, not for the work.
  `Daemon.OverlapExactly` says exactly when a replacement overlaps an execution, and
  `Daemon.OverlapHappens` is such a run: an elevated launch waits for the user for more than two seconds.
- **A roll-back that cannot stop the recogniser.** If `ESP_SR.end()` fails while the candidate runs and both
  restarts fail (`VoiceService.Strands`), the candidate's table stays loaded under the old active table, and
  a phrase submits the old table's action at its index (`VoiceService.StrandedSubmitsOldAction`).
  In every run, `EndToEnd.DisagreesExactly` gives the exact condition for the loaded table and
  `EndToEnd.SubmissionExactly` for a submitted command; the daemon refuses every request that such a table
  misrecognised (`EndToEnd.MisrecognisedIsRefused`).
- **Repeated requests.** A request is admitted again when an arrival that read the clock later overtook it on
  the way to the replay cache, also with a clock that never goes back (`Dispatch.OvertakenRepetition`; the
  exact condition is `Dispatch.RepetitionAdmittedExactly`), and when the daemon restarts within the
  request's lifetime (`Scenario.ExecutedTwiceAcrossRestart`). There is no third cause
  (`EndToEnd.RepeatedOnlyIf`). All executions of one request lie within
  ten seconds (`EndToEnd.ExecutedWithin`).
- **MQTT confirmation expiry.** The test is a plain `>` on the wrapping counter. `MqttWake.WithinLifetime`
  and `MqttWake.HonouredExactly` say exactly when it is right; `MqttWake.WrapBreaksExpiry` has a token that
  works 49 days late and one that is refused half a second after its issue.
- **Confirming at counter zero.** While a wake is pending, an empty confirmation token is accepted exactly
  when the counter reads zero (`MqttWake.ConfirmWhilePending`; `MqttWake.SecondPacketHappens` is such a run).
- **Escaping twice.** A line that is cut can split an inner escape, whatever its other text within the bounds below
  (`JsonEscape.OuterCutSplitsInner`); `JsonEscape.InnerText` gives the exact condition. Control characters
  other than newline, carriage return and tab are copied raw (`JsonEscape.NoRawControlCharacters`).
- The documentation says the daemon rejects deleted and disabled actions; in every run these requests are
  refused earlier, as stale (`EndToEnd.NeverUnknownNorDisabled`). It also says that the device rejects stale
  action revisions; the device only checks that the field is a number, and the daemon does the rejecting.
- The documentation says that ids are kept through five-second windows; with the permitted clock skew a
  reservation lives up to ten seconds (`Dispatch.ReservationsAreShortLived`).

## Model

| member | source | states |
|---|---|---|
| EndToEnd.ExecutedAsPublished | daemon/src/application.rs:208-258 | in every run, every custom execution on the PC answers a request the board built from an index recognised under the request's revision, and runs exactly the definition that index named when the revision was published |
| EndToEnd.AdmittedTwiceOvertaken | daemon/src/application.rs:149-258 | in every run, two arrivals of one request since the daemon started are both admitted only if an arrival with a later reading reached the replay cache between them |
| EndToEnd.RepeatedOnlyIf | daemon/src/application.rs:149-258 | in every run, one request is admitted at two events only if between them the daemon restarts or an arrival with a later reading comes |
| EndToEnd.ExecutedWithin | daemon/src/domain.rs:277-291 | in every run, across any restarts, all executions of one request carry readings less than 10000 ms apart |
| EndToEnd.ExecutesExactly | daemon/src/application.rs:208-258 | in every run, a delivered request executes exactly when it arrives within 5000 ms around its issue, the lifecycle lock and an executor slot are free, its revision is the published one with no action saved since, its id is not remembered, and fewer than 128 ids are |
| EndToEnd.MisrecognisedIsRefused | daemon/src/application.rs:220-232 | in every run, also from a stranded table, a request whose recognised index did not name its action in the table that recognised it is refused as stale whenever it arrives |
| EndToEnd.NeverUnknownNorDisabled | daemon/src/application.rs:233-240 | in every run, the refusals for an unknown and for a disabled action cannot happen after the stale test |
| EndToEnd.PersistedNeverDecreases | src/services/voice_service.cpp:145-185 | in every run, with power loss at any write of an activation, the revision the board would boot with never decreases |
| EndToEnd.BootsPersisted | src/services/voice_service.cpp:396-419 | in every run, when the power returns the board runs the stored table, which is the one published under its revision and no older than any acknowledged one, if the storage opens and the recogniser starts; otherwise the built-in commands if they start; it stays off exactly when no start works |
| EndToEnd.AcknowledgedIsPersisted | src/services/media_control_service.cpp:355-371 | in every run, a revision any daemon copy holds as acknowledged is at most the revision the board would boot with, and that table is one the daemon published under that revision |
| EndToEnd.BoardAgrees | src/services/voice_service.cpp:336-344 | in every run, between worker turns the event stamp is the active revision, every queued command was recognised with the loaded table under it, the loaded table names the active table's actions unless it was stranded, when the active revision is stale, and an update is under way exactly while the HTTPS worker waits for it |
| EndToEnd.SubmissionExactly | src/services/voice_service.cpp:336-344 | in every run, a submitted command was recognised with the loaded table and asks for the active table's action at its index; that is the recognising table's action too exactly when the table was not stranded, or names the same action there |
| EndToEnd.SubmitsExactly | src/services/media_control_service.cpp:473-507 | a turn builds a request exactly for a command heard in its session, with queued events as in every run, whose id is that of an entry of the active table and whose revision fits 32 bits; the request asks for that entry's action under the active revision, from its issue for 5000 ms |
| EndToEnd.FollowedInSession | src/services/voice_service.cpp:285-349 | in every run, a followed command (wake packet, media key, synchronisation, custom action) was detected less than 5760 ms, modulo the counter's wrap, after the turn of the wake word that began its session; the session ends with it, and no other command was followed in between |
| EndToEnd.OneCommandPerWakeWord | src/services/voice_service.cpp:245-308 | in every run, a new wake word lies between two followed commands |
| EndToEnd.RequestAnswersWakeWord | src/services/voice_service.cpp:336-344 | in every run, each request ever sent was built in a turn whose command was detected less than 5760 ms after the turn of a wake word, modulo the counter's wrap |
| EndToEnd.JobQueued | src/services/media_control_service.cpp:433-520 | a followed command becomes the HTTPS worker's next job exactly when the submission is taken and no job waits, and which job each command id becomes |
| EndToEnd.JobStarted | src/services/media_control_service.cpp:373-387 | jobs are started in order: a synchronisation fetches, a custom action's request is sent, unless the job is dropped |
| EndToEnd.TableHandedOver | src/services/media_control_service.cpp:300-366 | in every run, a fetched table goes to the voice worker exactly when the reply was received, its revision fits 32 bits and the queue has room, whatever its content; otherwise the attempt is over |
| EndToEnd.Acknowledges | src/services/media_control_service.cpp:355-371 | a revision is acknowledged exactly when its own update succeeded and the acknowledgement is sent |
| EndToEnd.MisrecognisedMeansStranded | src/services/voice_service.cpp:336-344 | in every run, a request that its recognising table does not bear out was built in a turn while a stranded table was loaded |
| EndToEnd.DisagreesExactly | src/services/voice_service.cpp:158-184 | in every run, the loaded table names other actions than the active one exactly when some activation had stranding answers and since then no other activation has stopped the recogniser and the power has not failed |
| EndToEnd.OneAnswerPerUpdate | src/services/voice_service.cpp:431-442 | a waiting HTTPS worker is answered only with the result of its own candidate's activation, begun while no session was listening; no answer comes without a wait |
| EndToEnd.AnsweredInRun | src/services/voice_service.cpp:431-442 | in every run, a waiting HTTPS worker keeps waiting with the same candidate until the one step that answers it with that candidate's own result, unless the power fails first |
| EndToEnd.StepKeepsInv | daemon/src/http.rs:158-219 | every step of the composed system, on either machine, keeps the invariant that spans both |
| EndToEnd.RunKeepsInv | daemon/src/http.rs:158-219 | the invariant holds in every state of every run |
| EndToEnd.ArrivalRunsAsPublished | daemon/src/application.rs:215-245 | an arrival that the daemon executes is executed as published, whatever its delay or number of deliveries |
| EndToEnd.SubmissionSound | src/services/voice_service.cpp:336-344 | a submitted command carries an index of the loaded table and a revision under which the published table names the submitted action there; the recognising table names it too exactly when it agrees with the active table at that index |
| EndToEnd.ActivationKeepsBoard | src/services/voice_service.cpp:145-185 | activation, with any answers, keeps what the board knows, loses no update to the queue reset, and a success is persisted |
| EndToEnd.StagedKnown | src/services/voice_service.cpp:150-176 | every stored state of an activation holds known tables, and boots with at least the old revision and at most the candidate's |
| EndToEnd.TakeTableSound | src/services/media_control_service.cpp:269-330 | taking a fetched table and handing it over keeps the invariant: it is the published one, and it is queued once |
| EndToEnd.ServedIsUsable | src/services/media_control_service.cpp:300-329 | the board takes every table that a valid configuration serves exactly when its revision fits 32 bits: the two validators never disagree on a served table |
| EndToEnd.TurnUpdateSound | src/services/voice_service.cpp:235-242 | a turn that takes an update, run at once or deferred, keeps the invariant |
| EndToEnd.TurnSpeechSound | src/services/voice_service.cpp:244-349 | a turn that takes a speech event keeps the invariant, whatever it submits |
| EndToEnd.PowerLossSound | src/services/voice_service.cpp:396-406 | power loss at any point, also between the writes of an activation, keeps the invariant |
| EndToEnd.FinishSyncSound | src/services/media_control_service.cpp:362-370 | an acknowledgement is sent only for a revision that is already persisted |
| EndToEnd.AcksFollow | daemon/src/http.rs:178-211 | no step of the daemon makes a copy hold an acknowledgement beyond what the board persisted |
| Scenario.SomethingIsExecuted | src/services/media_control_service.cpp:355-387 | there is a run from first start to an executed command, so the claims about every run are not empty |
| Scenario.ExecutedTwiceAcrossRestart | daemon/src/application.rs:128-134 | a run in which one request is executed twice, because the daemon restarted within its lifetime |
| Scenario.MisrecognisedIsSent | src/services/voice_service.cpp:171-184 | a run in which a stranded table is loaded and a phrase of it asks for the old table's action, the request that the daemon then refuses |
| Daemon.StepKeepsInv | daemon/src/adapters/windows_runtime.rs:158-190 | every writer's step, arrival, completion, cancellation and restart keeps the order of the copies, never moves the file to an older version and never changes what a revision stood for |
| Daemon.CopiesOrdered | daemon/src/adapters/windows_runtime.rs:158-190 | in every run shared <= dispatcher <= disk, equal whenever the lifecycle lock is free, and no replacement of the dispatcher's configuration overlaps a handler that waits for its execution |
| Daemon.OverlapExactly | daemon/src/http.rs:61-64 | a replacement overlaps an execution exactly when its handler was dropped before the work was done, and neither the end of the work nor a restart came in between |
| Daemon.HandlerWaitsExactly | daemon/src/application.rs:136-147 | in every run, a handler holds the lock a replacement waits for exactly while its work was started, and has neither ended nor lost its handler, and the daemon has not restarted |
| Daemon.OverlapHappens | daemon/src/adapters/windows_executor.rs:105-120 | a run in which the dispatcher's configuration is replaced while an earlier definition is still being launched |
| Daemon.DiskNeverGoesBack | daemon/src/config.rs:239-253 | in every run the file's published and actions revisions never decrease |
| Daemon.ServedIsNeverForgotten | daemon/src/http.rs:135-150 | a restart at any later moment still knows every revision that was served |
| Daemon.RestartAgreesWithDisk | daemon/src/adapters/windows_runtime.rs:87-96 | after a restart memory agrees with the file exactly when the file was readable or had never held anything |
| Daemon.UnreadableFileReusesRevision | daemon/src/adapters/windows_runtime.rs:87-96 | with an unreadable file, one request resolves to two different definitions before and after the restart |
| Daemon.ResolvesAsPublished | daemon/src/application.rs:215-242 | in a reachable state a request past the stale test resolves to the enabled action recorded when its revision was published |
| Daemon.CandidateIsSuccessor | daemon/src/adapters/windows_runtime.rs:163-182 | what a writer stores is valid and at most one version ahead, and acknowledgements and settings leave the version alone |
| Daemon.StoresExactly | daemon/src/adapters/windows_runtime.rs:158-190 | exactly when each writer stores something, and what: valid actions under the next action revision, a publication while a revision is left, an acknowledgement of the served table, an address that may be bound with a port; nothing else changes |
| WindowsRuntime.WindowsRuntime.Load | daemon/src/adapters/windows_runtime.rs:79-131 | after loading, whatever the two files held, memory holds the file's configuration or the default, nothing listens and the secrets name the bind address; the copies agree exactly when the file was readable or held nothing else; usable secrets keep their token |
| WindowsRuntime.WindowsRuntime.Store | daemon/src/adapters/windows_runtime.rs:158-190 | saving actions or publishing moves all three copies, or none when the candidate or the save fails |
| WindowsRuntime.WindowsRuntime.AcknowledgeVoiceConfig | daemon/src/http.rs:173-218 | which of the five outcomes an acknowledgement has, and what each leaves in memory and in the file |
| WindowsRuntime.ActiveExactly | daemon/src/http.rs:178-218 | an acknowledgement is active exactly when a fetch would be served that revision, and it was acknowledged before or the file was saved with the handler still there |
| WindowsRuntime.WindowsRuntime.SetListener | daemon/src/adapters/windows_runtime.rs:301-342 | under any failures, exactly when switching succeeds, and what it leaves: a listener exactly after success with the flag on, the flag as asked, or off after a listener that could not be started; a running listener implies the flag |
| WindowsRuntime.WindowsRuntime.Reconfigure | daemon/src/adapters/windows_runtime.rs:344-384 | exactly when a new address and port are taken; success changes exactly these, with a matching certificate; otherwise secrets and configuration in memory and the configuration file stay as they were |
| WindowsRuntime.WindowsRuntime.RotateCredentials | daemon/src/adapters/windows_runtime.rs:222-267 | exactly when a rotation succeeds, and what it leaves under any failures: new secrets exactly if they were provisioned and saved, the listener running again exactly if it stopped cleanly and restarts, the configuration paused if it does not |
| WindowsRuntime.WindowsRuntime.SaveConfig | daemon/src/adapters/windows_runtime.rs:386-388 | one file replacement is one step of the transition system |
| WindowsRuntime.WindowsRuntime.FinishWrite | daemon/src/adapters/windows_runtime.rs:184-188 | replacing the dispatcher's copy and then the shared one completes the write in all three copies |
| WindowsRuntime.ReplayKeepsInv | daemon/src/adapters/windows_runtime.rs:158-190 | any sequence of the runtime's steps keeps the invariant of the copies |
| Config.Validate | daemon/src/config.rs:80-219 | the validation with its set of ids accepts exactly the valid configurations |
| Config.PublishVoiceConfig | daemon/src/config.rs:49-78 | publishing computes the published configuration or refuses |
| Config.PublishesEveryEnabledPhrase | daemon/src/config.rs:55-76 | the published table holds the phrase of every enabled action that has one, and nothing else, each once and in the order of the actions |
| Config.ValidatesEveryPhrase | daemon/src/config.rs:97-112 | what validation looks at are the phrases of all actions, enabled or not, each once and in order |
| Config.PublishingMakesProgress | daemon/src/config.rs:49-78 | on a valid configuration publishing fails exactly when revisions are exhausted; otherwise it stays valid, raises the revision by one, and changes nothing but the published table |
| Config.EnabledCommandsValid | daemon/src/config.rs:55-70 | leaving out disabled actions keeps a valid draft table valid |
| Config.CommandNamesAction | daemon/src/config.rs:55-68 | each published command is the phrase and id of an enabled action |
| Config.CommandsJsonLength | daemon/src/http.rs:270-274 | the serialised commands take at most 156 characters each, because accepted phrases and ids need no escapes |
| Config.ServedTableFits | daemon/src/http.rs:135-150 | the served table of a valid configuration is never over the 3072-byte limit, so serving cannot fail on length |
| Config.ServedExactly | daemon/src/http.rs:135-150 | a valid configuration is served its published table exactly while no action was saved since; the exact condition of the other replies |
| Config.DecimalReadBack | daemon/src/http.rs:135-150 | a number in the served text reads back as itself |
| ReplayCache.DuplicateCache.Reserve | daemon/src/application.rs:94-109 | one call drops the expired entries and then reserves, or refuses as duplicate or busy |
| ReplayCache.CacheContents | daemon/src/application.rs:93-110 | after any calls the cache holds exactly the successful reservations that no later call has seen expired |
| ReplayCache.NoReplay | daemon/src/application.rs:94-109 | without any assumption on the clock, two successful reservations of one id are separated by a call whose reading had reached the first one's expiry |
| ReplayCache.CacheBounds | daemon/src/application.rs:100-107 | ids in the cache are distinct and there are at most 128 |
| ReplayCache.BusyMeans | daemon/src/application.rs:104-106 | a call answers busy only when 128 distinct ids, none of them its own, are still alive |
| ReplayCache.RememberedExactly | daemon/src/application.rs:94-109 | a reserved id is still held at a later call exactly when neither that call nor one in between has seen it expired |
| Dispatch.Dispatcher.ReplaceConfig | daemon/src/application.rs:137-147 | an invalid configuration is refused and changes nothing |
| Dispatch.Dispatcher.DispatchMedia | daemon/src/application.rs:149-175 | exactly the admitted arrivals reserve and go to the executor, once; they execute if it has a free slot, and leave one diagnostic and a reply unless the handler is dropped; a refusal leaves all logs alone |
| Dispatch.Dispatcher.DispatchCustom | daemon/src/application.rs:208-258 | the same for custom actions, with the stale, unknown and disabled refusals before the reservation |
| Dispatch.Dispatcher.Record | daemon/src/application.rs:267-285 | the diagnostics are the newest 128 of all that were recorded |
| Dispatch.EntriesAreCache | daemon/src/application.rs:287-292 | the dispatcher's entries are those of the cache under the arrivals that reach it |
| Dispatch.AdmittedMeans | daemon/src/application.rs:244-245 | an arrival is admitted exactly when its reservation succeeds |
| Dispatch.AdmittedExactly | daemon/src/application.rs:208-246 | an arrival is admitted exactly when it is in time, the lock is free, what it asks for is selected by the configuration, its id is not remembered and fewer than 128 ids are; the exact condition of the duplicate and the busy refusal |
| Dispatch.ScreenedExactly | daemon/src/application.rs:149-240 | what an arrival is given before the cache is asked: the exact condition of each refusal, or the work it asks for |
| Dispatch.ResolvesExactly | daemon/src/application.rs:215-241 | a custom request is stale exactly when it is not about the published table with unchanged actions that names its action; otherwise the first action with its id decides, and runs its definition |
| Dispatch.OutcomesAreTold | daemon/src/application.rs:246-255 | the answer tells every outcome of the executor apart; the diagnostic event names request and action, success, failure and cancellation, and the reason |
| Dispatch.ExecutesAtMostOnce | daemon/src/application.rs:149-258 | if arrivals reach the cache in the order of their readings, a request executes at most once, across both endpoints and any configuration changes |
| Dispatch.AdmittedTwiceOvertaken | daemon/src/application.rs:149-258 | a request is admitted twice only if an arrival with a later reading than the second reached the cache before it |
| Dispatch.RepetitionAdmittedExactly | daemon/src/application.rs:93-109 | a repetition is admitted exactly when it passes the earlier tests, finds room, and an arrival in between carried a reading at or past the expiry |
| Dispatch.OvertakenRepetition | daemon/src/http.rs:86 | three arrivals in which a copy is admitted again although the clock never goes back |
| Dispatch.ReservationsAreShortLived | daemon/src/domain.rs:277-291 | every remembered id was reserved by an admitted arrival and expires within 10000 ms of its reading |
| Domain.TrimFixed | daemon/src/domain.rs:250 | a string equals its trim exactly when it neither starts nor ends with white space |
| Domain.PhraseAcceptedMeaning | daemon/src/domain.rs:248-260 | the library tests accept exactly 2 to 63 letters with single inner spaces that are no built-in word |
| Domain.ValidateVoiceCommandDrafts | daemon/src/domain.rs:241-268 | the two hash sets accept exactly the tables of such phrases without clashes |
| Domain.ValidateVoiceCommands | daemon/src/domain.rs:234-239 | the same, with at most 12 commands |
| Domain.InTimeExactly | daemon/src/domain.rs:277-291 | a request is in time exactly for readings in the 10000 ms around its issue, with a lifetime of 5000 ms; the exact condition of each of the three refusals |
| VoiceConfigPolicy.PhraseNormalize | src/services/voice_config_policy.h:28-32 | in-place lower-casing of the held string, within the buffer |
| VoiceConfigPolicy.PhraseIsValid | src/services/voice_config_policy.h:34-43 | the scan accepts exactly the phrase shapes and never leaves the buffer |
| VoiceConfigPolicy.PhraseIsShapeAndNoWord | src/services/voice_config_policy.h:34-62 | a phrase is one the scan accepts and no built-in word |
| VoiceConfigPolicy.ActionIdIsValid | src/services/voice_config_policy.h:45-53 | the scan accepts exactly the ids that the daemon's parser accepts |
| VoiceConfigPolicy.PhraseReserved | src/services/voice_config_policy.h:55-64 | true exactly when the lower-cased phrase is a built-in word |
| VoiceConfigPolicy.PhrasesEqual | src/services/voice_config_policy.h:66-70 | true exactly when the phrases are equal up to letter case |
| VoiceConfigPolicy.StringsEqual | src/services/voice_config_policy.h:83 | true exactly when the held ids are equal |
| VoiceConfigPolicy.ClashesEarlier | src/services/voice_config_policy.h:81-84 | the inner loop finds a clash with an earlier entry exactly when there is one |
| VoiceConfigPolicy.ConfigIsValid | src/services/voice_config_policy.h:72-87 | the pairwise test accepts exactly the valid snapshots, whatever the unused buffers hold |
| VoiceConfigPolicy.EncodeRoundTrip | src/services/media_control_service.cpp:311-328 | copying a table into the buffers and reading them back gives the table |
| VoiceConfigPolicy.ValidatorsAgree | src/services/voice_config_policy.h:72-87 | for every table that fits the buffers, the daemon accepts it exactly when the firmware accepts its encoding |
| SpeechTable.BuildSpeechCommands | src/services/voice_service.cpp:89-105 | the built table is the eight built-in words followed by the lower-cased phrases under consecutive ids |
| SpeechTable.TableIsUnambiguous | src/services/voice_service.cpp:89-105 | no two entries share an id or a text, built-in words included, nothing is cut, and the ids are exactly those an event can carry |
| SpeechTable.PhraseHasOneMeaning | src/services/voice_policy.h:21-38 | a recognised published phrase is taken as its own index, whatever its letter case |
| VoiceService.VoiceService.ActivateConfig | src/services/voice_service.cpp:145-185 | activation against its specification, with the trail of stored states it passes through |
| VoiceService.VoiceService.StageCandidate | src/services/voice_service.cpp:150-156 | staging writes only the spare slot and reads it back |
| VoiceService.VoiceService.SwapCandidate | src/services/voice_service.cpp:158-184 | the recogniser accepts the candidate before the slot number changes, and every failure rolls back |
| VoiceService.VoiceService.RollBack | src/services/voice_service.cpp:162-168 | the old table is restarted, or the built-in one with stamp 0 |
| VoiceService.VoiceService.StartRecognizer | src/services/voice_service.cpp:107-134 | what is loaded after a start, also when the read-back fails and the recogniser cannot be stopped |
| VoiceService.VoiceService.OnSpeechEvent | src/services/voice_service.cpp:192-220 | an event is stamped with the callback revision and queued, or dropped when the queue is full |
| VoiceService.VoiceService.FinishPending | src/services/voice_service.cpp:227-231 | a deferred update is activated and answered once the session is over |
| VoiceService.VoiceService.ReceiveMessage | src/services/voice_service.cpp:233-349 | one message of the worker: sessions, late and stale commands, submissions and updates |
| VoiceService.CrashRecovery | src/services/voice_service.cpp:150-184 | wherever the power fails, the named slot is untouched and a boot reads in full the old table or the candidate; the slot number changes only after the recogniser accepted; success means stored, named, active and stamped |
| VoiceService.ActivatesExactly | src/services/voice_service.cpp:145-185 | an update succeeds exactly when it is the active table over again, or valid and newer with its bytes in the spare slot, a recogniser that stops and starts with it, and a slot number that is written |
| VoiceService.ActivationWrites | src/services/voice_service.cpp:145-173 | an update writes nothing unless the candidate is valid and newer and the storage usable; then its bytes to the spare slot, and the slot number only after the recogniser has taken the candidate |
| VoiceService.FailedActivationRestores | src/services/voice_service.cpp:161-180 | a failed update that had stopped the recogniser restores the old table whenever that starts, and falls back to the built-in commands exactly when it does not and they do; otherwise the active table and the stamp stay, and what is loaded follows from the restarts |
| VoiceService.BootExactly | src/services/voice_service.cpp:396-419 | a boot loads the stored table whenever there is one that starts, otherwise the built-in commands if they start, and fails exactly when no start works |
| VoiceService.BootableExactly | src/services/voice_service.cpp:82-87 | what a boot can read: the slot that is named, 0 or 1, holds a valid table |
| VoiceService.ActivatedIsBooted | src/services/voice_service.cpp:396-419 | the next boot after a successful update loads the updated table, if its start works |
| VoiceService.SpeechOutputExactly | src/services/voice_service.cpp:285-344 | a speech event makes the worker ask for something exactly when it is a known command, heard while listening and detected less than 5760 ms after the session began, with wake-word mode restored; which output each id gives, and for a custom command the active table's action under a matching stamp |
| VoiceService.SpeechSessionExactly | src/services/voice_service.cpp:245-317 | a wake word begins a session unless one is open, if command mode is set; a command or a timeout ends it and restores wake-word mode; nothing else changes |
| VoiceService.RollbackAgreement | src/services/voice_service.cpp:161-181 | both roll-back paths and the fall-back keep the stamp, and leave a disagreeing table loaded exactly under the stranding answers |
| VoiceService.ActivationAgreement | src/services/voice_service.cpp:145-185 | after an activation that stopped the recogniser, whatever was loaded before, the tables disagree exactly under the stranding answers; any other activation changes nothing in this |
| VoiceService.SpeechTurnKeepsVoiceInv | src/services/voice_service.cpp:244-349 | a turn that takes a speech event keeps the invariant; a submitted custom command was recognised with the loaded table, at an index of it, and has the submitted action at that index in the active table |
| VoiceService.UpdateTurnKeepsVoiceInv | src/services/voice_service.cpp:235-242 | a turn that takes an update keeps the invariant, whatever the answers |
| VoiceService.ActivationKeepsVoiceInv | src/services/voice_service.cpp:145-185 | an activation keeps the invariant whatever the answers: a reload leaves no command of an older table in the queue |
| VoiceService.StrandedIsNewer | src/services/voice_service.cpp:147-148 | a candidate that an activation strands is newer than the table that stays active |
| VoiceService.StrandedSubmitsOldAction | src/services/voice_service.cpp:171-180 | a concrete stranding, and the phrase that then submits the old table's action under the old revision |
| VoiceService.BootVoiceInv | src/services/voice_service.cpp:396-419 | every boot that comes up starts in agreement |
| VoiceService.DetectionKeepsVoiceInv | src/services/voice_service.cpp:192-220 | queuing an event keeps the agreement |
| VoiceSession.VoiceSession.Begin | src/services/voice_policy.h:45-50 | a session begins only when none is open |
| VoiceSession.VoiceSession.Accept | src/services/voice_policy.h:52-57 | a command is accepted only within the window, and ends the session either way |
| VoiceSession.VoiceSession.Expire | src/services/voice_policy.h:59-63 | a session ends exactly when its window is over |
| VoiceSession.AcceptsExactly | src/services/voice_policy.h:40-63 | in every run of the session, a command is accepted exactly when it was detected within 5760 ms from the begin of the open session, modulo the counter's wrap; within one wrap that is true time, and a detection before the begin is never accepted |
| VoiceSession.OneCommandPerSession | src/services/voice_policy.h:40-63 | between two accepted commands a new session began |
| OtaButton.OtaButtonGate.Begin | src/services/ota_policy.h:14-21 | the gate's start, held or not |
| OtaButton.OtaButtonGate.Sample | src/services/ota_policy.h:23-49 | one sample against its specification |
| OtaButton.GateTracks | src/services/ota_policy.h:12-58 | after any samples the gate's fields are the debounced signal, its last press and whether it has fired since, defined from the readings alone |
| OtaButton.FiresExactly | src/services/ota_policy.h:43-48 | the gate fires exactly when the debounced signal is pressed, its press is at least 3000 counter milliseconds old and nothing fired since |
| OtaButton.FireFollowsHold | src/services/ota_policy.h:23-49 | in true time, each fire follows a release, an unbroken press of 50 ms and a hold of 3000 ms |
| OtaButton.FiresFarApart | src/services/ota_policy.h:23-49 | in true time, two fires, and the start and the first fire, are at least 3050 ms apart, with a release between two fires |
| OtaWorker.OtaPolicy.OpenWindow | src/services/ota_policy.h:62-67 | a window opens only from closed, configured and connected |
| OtaWorker.OtaPolicy.ExpireWindow | src/services/ota_policy.h:69-75 | a window closes exactly when it is over |
| OtaWorker.OtaPolicy.BeginTransfer | src/services/ota_policy.h:77-89 | a start is admitted only in an open window that is not over, and a late one closes it |
| OtaWorker.OtaPolicy.TransferExpired | src/services/ota_policy.h:91-94 | true exactly when a transfer is past its deadline |
| OtaWorker.Service.PollOnce | src/services/ota_service.cpp:99-128 | the body of the worker's loop against its specification, button included |
| OtaWorker.Service.RunHandle | src/services/ota_service.cpp:27-62 | one call of the upload library with its callbacks |
| OtaWorker.LoopHead | src/services/ota_service.cpp:99-128 | in every run, at any distances of the polls, at the loop's head the listener runs exactly while the policy is not closed, and no transfer or failure is pending |
| OtaWorker.PollExactly | src/services/ota_service.cpp:99-128 | in every run, exactly when one poll opens a window, admits a start, restarts the board and leaves the window open, in terms of the poll and the window's begin |
| OtaWorker.TransferWithinWindow | src/services/ota_policy.h:77-89 | in true time, each admitted start lies less than 120000 ms after the latest opening, which the button fired, with no other start since |
| OtaWorker.EachStartItsOwnHold | src/services/ota_service.cpp:111-121 | two admitted starts belong to two fires at least 3050 ms apart, the second fire after the first start |
| OtaWorker.FinishedInTime | src/services/ota_service.cpp:41-50 | a transfer is cut exactly when a progress callback comes 180000 ms or more after its start, modulo the counter's wrap, and in true time within one wrap; the board then restarts |
| Indicator.IndicatorWorker.LoopTop | src/services/indicator_service.cpp:43-57 | the wait is bounded exactly while a pulse is shown, by what is left of it |
| Indicator.IndicatorWorker.Handle | src/services/indicator_service.cpp:62-90 | one event against its specification |
| Indicator.ShowsWhatEventsCallFor | src/services/indicator_service.cpp:34-92 | after every turn the light shows exactly what the events alone call for: the latest pulse while under 500 ms of true time, otherwise the window or listening colour; no pulse while the window is not closed |
| Indicator.FailuresAreRed | src/services/indicator_policy.h:25-75 | a pulse shows red alone exactly when it reports a failure; a sent wake packet shows its source |
| Indicator.BaseTellsApart | src/services/indicator_policy.h:21-45 | without a pulse the light tells window, transfer, listening and rest apart, and is dark exactly at rest |
| Indicator.PulseTest | src/services/indicator_policy.h:17-19 | the test on the wrapping counter is right about the pulse's true age |
| Indicator.WaitEndsPulse | src/services/indicator_service.cpp:44-57 | the worker asks to be woken exactly when the pulse ends, and then ends it |
| MqttWake.MqttWake.BeginWake | src/services/mqtt_service.cpp:174-214 | a sent packet makes a wake pending and spends the token; a failed one changes nothing |
| MqttWake.MqttWake.HandleRequest | src/services/mqtt_service.cpp:216-264 | forced, rejected and token-issuing requests, with the lifetime cap |
| MqttWake.MqttWake.HandleConfirm | src/services/mqtt_service.cpp:266-305 | the four outcomes of a confirmation |
| MqttWake.MqttWake.HandleCancel | src/services/mqtt_service.cpp:307-319 | a cancellation drops token, id and pending wake |
| MqttWake.MqttWake.Poll | src/services/mqtt_service.cpp:597-634 | polling the PC every 3 s, giving up after 45 s, and dropping expired tokens |
| MqttWake.ReachableInv | src/services/mqtt_service.cpp:174-319 | in every run, pending implies an empty token with expiry 0, a token implies a wake id, and a wake id implies a token or a pending wake |
| MqttWake.RequestExactly | src/services/mqtt_service.cpp:216-264 | in every run, a request is answered by a packet exactly when it is forced and sent, is turned away while a wake is pending, and otherwise gets its token, good for what it asked for and at most an hour |
| MqttWake.ConfirmExactly | src/services/mqtt_service.cpp:266-305 | in every run, with no wake pending, a confirmation sends a packet exactly for the right token within its expiry reading when the network takes it; the right token too late is dropped, and anything else leaves the token |
| MqttWake.ConfirmWhilePending | src/services/mqtt_service.cpp:266-305 | a confirmation while pending sends another packet exactly for an empty token at counter reading zero |
| MqttWake.SecondPacketHappens | src/services/mqtt_service.cpp:282-303 | a run in which an empty token sends a second packet |
| MqttWake.PacketOrigin | src/services/mqtt_service.cpp:216-305 | every confirmed packet goes back to the latest issued token, the one given, with no cancellation, newer request or packet in between, and carries that request's id, except a second packet for a pending wake at counter reading zero |
| MqttWake.OnePacketPerToken | src/services/mqtt_service.cpp:174-305 | two confirmed packets that are no such second packets come from two issued tokens |
| MqttWake.PlainTestExact | src/services/mqtt_service.cpp:290 | the plain comparison agrees with true time exactly under a condition on the wraps of the two times |
| MqttWake.WithinLifetime | src/services/mqtt_service.cpp:241-251 | a confirmed packet leaves within its capped lifetime exactly when the counter has not wrapped since the expiry |
| MqttWake.HonouredExactly | src/services/mqtt_service.cpp:266-305 | the right token, confirmed in its lifetime with nothing in between that cancels, replaces or spends it, sends its packet exactly when the counter does not wrap between any test of it and its expiry |
| MqttWake.LatePacketMeansNoPoll | src/services/mqtt_service.cpp:629-634 | a late packet needs that no poll ran between the expiry and the next wrap |
| MqttWake.WrapBreaksExpiry | src/services/mqtt_service.cpp:290 | two concrete runs in which the plain comparison is wrong |
| MqttWake.ProbesFarApart | src/services/mqtt_service.cpp:597-602 | in true time, probes are at least 3000 ms apart and come at least 3000 ms after a packet |
| MqttWake.ProbesExactly | src/services/mqtt_service.cpp:597-602 | a poll probes exactly when a wake is pending and 3000 ms have passed since the latest packet or probe, modulo the counter's wrap |
| MqttWake.ProbeDecides | src/services/mqtt_service.cpp:604-626 | a probe ends a pending wake exactly when the PC answers or 45000 ms have passed since the latest packet, modulo the counter's wrap, and in true time within one wrap |
| WindowsQuoting.QuoteWindowsArgument | daemon/src/adapters/windows_executor.rs:259-280 | the quoted argument is read back as exactly the one argument |
| WindowsQuoting.RoundTrip | daemon/src/adapters/windows_executor.rs:197-201 | for every list, parsing the joined quotations by Microsoft's rules for C programs gives the list |
| WindowsQuoting.ReadQuoted | daemon/src/adapters/windows_executor.rs:259-280 | the rest of an argument is read back with any backslashes held before it |
| WindowsQuoting.JoinQuoted | daemon/src/adapters/windows_executor.rs:197-201 | the joining loop |
| WindowsQuoting.ExeInAnyCase | daemon/src/adapters/windows_executor.rs:183-203 | an executable is one with the extension exe, in any letter case |
| WindowsQuoting.ElevatedParameters | daemon/src/adapters/windows_executor.rs:183-203 | refused exactly for a program that is no executable or a NUL in an argument; otherwise the started program gets exactly the configured arguments |
| IpcFraming.Reader.ReadFrame | daemon/src/management.rs:99-116 | one frame, a clean end or a failure, and what is left of the stream |
| IpcFraming.Writer.WriteFrame | daemon/src/management.rs:118-128 | a frame of permitted size is appended with its prefix; others are refused and write nothing |
| IpcFraming.Writer.WriteMessage | daemon/src/management.rs:139-144 | a message goes out whole, as one frame, or not at all |
| IpcFraming.LimitedFrame | daemon/src/management.rs:148-158 | the buffer takes the pieces exactly when they fit one frame together |
| IpcFraming.FailsExactly | daemon/src/management.rs:99-116 | the exact condition for a clean end, a stream cut short and an announced frame of wrong size |
| IpcFraming.RoundTrip | daemon/src/management.rs:99-128 | frames written one after the other are read back, followed by a clean end |
| IpcFraming.CutStream | daemon/src/management.rs:99-116 | a cut stream gives the frames before the cut, and a clean end exactly at a frame boundary |
| IpcFraming.CleanStreamIsWritten | daemon/src/management.rs:99-128 | a stream that reads to a clean end is exactly what writing its frames produces |
| JsonEscape.EscapeJson | src/services/log_service.cpp:36-50 | for any buffer of at least six characters: no write outside, terminated, and the escaping of a prefix, so no escape is split |
| JsonEscape.WholeExactly | src/services/log_service.cpp:36-50 | nothing is lost exactly when all but the last character leave room |
| JsonEscape.DecodeEscaped | src/services/log_service.cpp:36-50 | decoding gives back what was escaped |
| JsonEscape.NoRawControlCharacters | src/services/log_service.cpp:40-47 | the result is free of raw control characters exactly when the input has none but the three that are escaped |
| JsonEscape.LogEvent | src/services/log_service.cpp:127-162 | what is sent decodes to a prefix of the line, and to the whole line when nothing was cut; lines of 1536 characters or more are skipped |
| JsonEscape.SendLine | src/services/log_service.cpp:61-98 | the second escaping of a line |
| JsonEscape.DecodePrefix | src/services/log_service.cpp:36-50 | a prefix of an escaping decodes exactly when it ends between two escapes |
| JsonEscape.InnerText | src/services/log_service.cpp:138-155 | the message inside a sent line decodes exactly when the outer cut is not inside one of its escapes |
| JsonEscape.OuterCutSplitsInner | src/services/log_service.cpp:86 | for any other text of the line, within 1000 escaped characters before the message and 500 in all, there is a message whose inner escape the outer cut splits |

## Left out

- TLS, certificates, secrets at rest, the registry, process launching: only whether a call succeeded enters a transition.
- HTTP framing, headers, authentication and JSON parsing: requests and replies are decoded values; of the serialised table only the length is modelled.
- `test_action` and `set_start_after_login`: a subset of what the dispatcher and the other management operations show. A local test is not limited to two seconds, but the executor itself stops waiting for an elevated launch after twenty, with the same effect as a dropped handler.
- The checks on names, paths and arguments of one action: folded into `Definition.wellFormed`; the check of the bind address is `Address.bindAllowed`.
- A firmware string is a sequence of bytes, one `char` a byte; `trim` is modelled on ASCII white space, since a phrase with any other character is refused anyway.
- Write errors of the settings connection, interrupted reads, and allocation failures on the board.
- MQTT reboot confirmation (the same machine without a pending state), connection handling, and what is published to topics.
- The wake packet, Telegram, Wi-Fi, log shipping, the settings window and the dashboard.
- What the light's queue drops when it is full: the events of a run are the received ones.
- Liveness: that the board or the daemon eventually answers. After a roll-back whose restarts fail, the recogniser stays stopped until the next start.
- OtaWorker.TransferWithinWindow: requires polls and start callbacks less than 2^32 - 120000 ms apart, because the counter cannot tell longer gaps from short ones.
- Indicator.ShowsWhatEventsCallFor: requires turns less than 2^32 - 500 ms apart, for the same reason.
- VoiceSession.AcceptsExactly: speaks of true time only for a detection less than 2^32 ms after the begin, or at most 2^32 - 5760 ms before it; beyond that it is exact modulo the wrap, because the counter cannot tell more.
- MqttWake.ProbeDecides: speaks of true time only for a probe less than 2^32 ms after the packet, and beyond that modulo the wrap.
- OtaWorker.FinishedInTime: speaks of true time only for callbacks less than 2^32 ms after the start, and beyond that modulo the wrap.
- JsonEscape.OuterCutSplitsInner: needs at most 1000 escaped characters before the message and 500 characters of other text, because a line that is longer is cut before its message or skipped.

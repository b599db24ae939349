/** The daemon's management operations: each changes the configuration file, the dispatcher's copy and the
    shared copy in sequence, together with the secrets and the listener, and may fail at every call to the
    outside.  A listener is present or not; `Secrets.host` is the address its certificate names. */
module WindowsRuntime {
  import opened Common
  import opened Domain
  import opened Config
  import D = Daemon

  datatype Secrets = Secrets(token: string, host: string, tls: nat)

  /** The states of the configuration copies reached by a sequence of writer steps. */
  ghost function Replay(start: D.State, events: seq<D.Event>): Option<D.State> {
    if events == [] then Some(start)
    else
      var before, last := Replay(start, events[..|events| - 1]), events[|events| - 1];
      if before.Some? && D.Enabled(before.value, last) && D.Reads(last) then Some(D.Apply(before.value, last)) else None
  }

  lemma {:induction false} ReplayExtends(start: D.State, events: seq<D.Event>, e: D.Event)
    requires Replay(start, events).Some? && D.Enabled(Replay(start, events).value, e) && D.Reads(e)
    ensures Replay(start, events + [e]) == Some(D.Apply(Replay(start, events).value, e))
  {
    assert (events + [e])[..|events|] == events;
  }

  lemma {:induction false} ReplayKeepsInv(start: D.State, events: seq<D.Event>)
    requires D.Inv(start) && Replay(start, events).Some?
    ensures D.Inv(Replay(start, events).value)
    decreases |events|
  {
    if events == [] {
    } else {
      ReplayKeepsInv(start, events[..|events| - 1]);
      D.StepKeepsInv(Replay(start, events[..|events| - 1]).value, events[|events| - 1]);
    }
  }

  /** A start keeps the invariant of the copies exactly when memory agrees with the file. */
  lemma {:induction false} RestartKeepsInv(disk: D.State, readable: bool)
    requires D.Inv(disk)
    ensures D.Inv(D.Apply(disk, D.Restart(readable))) <==> readable || D.SameVersion(DEFAULT_CONFIG, disk.disk)
  {
    if readable {
      D.StepKeepsInv(disk, D.Restart(true));
    } else {
      DefaultIsValid();
    }
  }

  lemma {:induction false} DefaultIsValid()
    ensures Valid(DEFAULT_CONFIG)
  {
    assert DraftCommands([]) == [] && EnabledCommands([]) == [];
  }

  /** The answer to an acknowledgement; `Unanswered` when its handler was dropped. */
  datatype AckReply = NothingApplied | StaleRevision | Active | SaveFailed | Unanswered

  /** The answer to an acknowledgement of a revision, given the configuration. */
  function AckOutcome(c: AppConfig, revision: U64, fileSaved: bool, dropped: bool): AckReply {
    if c.published.None? then NothingApplied
    else if c.published.value.actionsRevision != c.actionsRevision || c.published.value.revision != revision
    then StaleRevision
    else if c.acknowledged == Some(revision) then Active
    else if !fileSaved then SaveFailed
    else if dropped then Unanswered
    else Active
  }

  /** An acknowledgement is active exactly when a fetch would be served that revision, and it was already
      acknowledged or the file was saved with the handler still there. */
  lemma {:induction false} ActiveExactly(c: AppConfig, revision: U64, fileSaved: bool, dropped: bool)
    requires Valid(c)
    ensures AckOutcome(c, revision, fileSaved, dropped).Active?
            <==> Serve(c).Served? && Serve(c).table.revision == revision
                 && (c.acknowledged == Some(revision) || (fileSaved && !dropped))
  {
    ServedTableFits(c);
  }

  class WindowsRuntime {
    var diskConfig: AppConfig
    var diskSecrets: Secrets
    var dispatcherConfig: AppConfig
    var config: AppConfig
    var secrets: Secrets
    var listening: bool
    ghost const start: D.State
    ghost var events: seq<D.Event>
    ghost var writer: D.Writer
    ghost var meanings: map<nat, D.Meaning>

    ghost function Model(): D.State
      reads this
    {
      D.State(diskConfig, dispatcherConfig, config, writer, map[], map[], start.arrivals, [], meanings)
    }

    /** The copies have only ever moved by steps of the transition system. */
    ghost predicate Followed()
      reads this
    {
      D.Inv(start) && Replay(start, events) == Some(Model())
    }

    /** Between operations. */
    ghost predicate AtRest()
      reads this
    {
      Followed() && writer.Free?
      && (listening ==> config.listenerEnabled)
      && secrets.host == config.bindAddress.text
      && config.bindAddress == diskConfig.bindAddress
    }

    /** `load`, from whatever the two files hold.  An unreadable configuration file is replaced in memory by
        the default; the secrets may be missing or unreadable, or name another address after a crash
        between two saves.  Provisioning a certificate and writing the secrets back may fail, and then
        there is no runtime. */
    constructor Load(stored: AppConfig, readable: bool, ghost disk: D.State, readSecrets: Option<Secrets>,
                     freshToken: string, freshTls: nat)
      requires D.Inv(disk) && disk.disk == stored
      ensures config == dispatcherConfig == (if readable then stored else DEFAULT_CONFIG) && diskConfig == stored
      ensures !listening && secrets.host == config.bindAddress.text && diskSecrets == secrets
      ensures AtRest() <==> readable || (D.SameVersion(DEFAULT_CONFIG, stored)
                                         && stored.bindAddress == DEFAULT_CONFIG.bindAddress)
      ensures secrets.token == if readSecrets.Some? then readSecrets.value.token else freshToken
      ensures secrets.tls == if readSecrets.Some? && readSecrets.value.host == config.bindAddress.text
                             then readSecrets.value.tls else freshTls
    {
      var loaded := if readable then stored else DEFAULT_CONFIG;
      var found :=
        if readSecrets.None? then Secrets(freshToken, loaded.bindAddress.text, freshTls)
        else if readSecrets.value.host != loaded.bindAddress.text
        then readSecrets.value.(host := loaded.bindAddress.text, tls := freshTls)
        else readSecrets.value;
      diskConfig, dispatcherConfig, config := stored, loaded, loaded;
      diskSecrets, secrets, listening := found, found, false;
      start, events, writer, meanings := D.Apply(disk, D.Restart(readable)), [], D.Free, disk.meanings;
      RestartKeepsInv(disk, readable);
    }

    ghost predicate SameConfig(c: AppConfig)
      reads this
    {
      diskConfig == c && dispatcherConfig == c && config == c
    }

    method SaveConfig(op: D.WriteOp, candidate: AppConfig, fileSaved: bool)
      requires Followed() && writer.Free? && D.Candidate(config, op) == Some(candidate)
      modifies this`diskConfig, this`events, this`writer, this`meanings
      ensures Followed() && Model() == D.Apply(old(Model()), D.BeginWrite(op, fileSaved))
      ensures diskConfig == if fileSaved then candidate else old(diskConfig)
      ensures if fileSaved then writer == D.Saved(candidate, op.Acknowledge?) else writer.Free?
    {
      ReplayExtends(start, events, D.BeginWrite(op, fileSaved));
      events := events + [D.BeginWrite(op, fileSaved)];
      if fileSaved {
        diskConfig, writer := candidate, D.Saved(candidate, op.Acknowledge?);
        meanings := D.Apply(old(Model()), D.BeginWrite(op, true)).meanings;
      }
    }

    /** The dispatcher's copy once no execution is in flight, then the shared copy. */
    method FinishWrite(candidate: AppConfig)
      requires Followed() && writer.Saved? && writer.candidate == candidate
      modifies this`dispatcherConfig, this`config, this`events, this`writer
      ensures Followed() && writer.Free? && SameConfig(candidate)
    {
      ReplayKeepsInv(start, events);
      ReplayExtends(start, events, D.ReplaceDispatcher);
      events := events + [D.ReplaceDispatcher];
      dispatcherConfig, writer := candidate, D.Replaced(candidate);
      ReplayExtends(start, events, D.PublishShared);
      events := events + [D.PublishShared];
      config, writer := candidate, D.Free;
    }

    /** `save_actions` and `apply_voice_config`: all three copies move to the candidate, or none does. */
    method Store(op: D.WriteOp, fileSaved: bool) returns (ok: bool)
      requires AtRest() && (op.SaveActions? || op.ApplyVoiceConfig?)
      modifies this`diskConfig, this`dispatcherConfig, this`config, this`events, this`writer, this`meanings
      ensures AtRest()
      ensures ok <==> D.Candidate(old(config), op).Some? && fileSaved
      ensures ok ==> SameConfig(D.Candidate(old(config), op).value)
      ensures !ok ==>
                config == old(config) && dispatcherConfig == old(dispatcherConfig) && diskConfig == old(diskConfig)
    {
      var candidate := D.Candidate(config, op);
      if candidate.None? {
        return false;
      }
      SaveConfig(op, candidate.value, fileSaved);
      if !fileSaved {
        return false;
      }
      FinishWrite(candidate.value);
      return true;
    }

    /** `voice_config_ack` after the lifecycle lock is held.  The handler may be dropped while it waits for the
        dispatcher; the file then keeps the acknowledgement, memory does not. */
    method AcknowledgeVoiceConfig(revision: U64, fileSaved: bool, dropped: bool) returns (reply: AckReply)
      requires AtRest()
      modifies this`diskConfig, this`dispatcherConfig, this`config, this`events, this`writer, this`meanings
      ensures AtRest()
      ensures reply == AckOutcome(old(config), revision, fileSaved, dropped)
      ensures config == if reply.Active? then old(config).(acknowledged := Some(revision)) else old(config)
      ensures reply.Unanswered? ==> diskConfig == old(config).(acknowledged := Some(revision))
      ensures reply.NothingApplied? || reply.StaleRevision? || reply.SaveFailed? ==> diskConfig == old(diskConfig)
    {
      if config.published.None? {
        return NothingApplied;
      }
      if config.published.value.revision != revision
         || config.published.value.actionsRevision != config.actionsRevision {
        return StaleRevision;
      }
      if config.acknowledged == Some(revision) {
        return Active;
      }
      AckIsStorable(revision);
      var candidate := config.(acknowledged := Some(revision));
      SaveConfig(D.Acknowledge(revision), candidate, fileSaved);
      if !fileSaved {
        return SaveFailed;
      }
      if dropped {
        ReplayExtends(start, events, D.CancelWaiting);
        events, writer := events + [D.CancelWaiting], D.Free;
        return Unanswered;
      }
      FinishWrite(candidate);
      return Active;
    }

    lemma {:induction false} AckIsStorable(revision: U64)
      requires Followed() && config.published.Some? && config.published.value.revision == revision
      requires config.published.value.actionsRevision == config.actionsRevision && config.acknowledged != Some(revision)
      ensures D.Candidate(config, D.Acknowledge(revision)) == Some(config.(acknowledged := Some(revision)))
    {
      ReplayKeepsInv(start, events);
    }

    /** Switching the listener flag is always a storable change. */
    lemma {:induction false} FlagIsStorable(enabled: bool)
      requires Followed()
      ensures D.Candidate(config, Settings(config.(listenerEnabled := enabled)))
              == Some(config.(listenerEnabled := enabled))
    {
      ReplayKeepsInv(start, events);
    }

    /** Binding the port: there must be no listener on it. */
    method StartListener(possible: bool) returns (started: bool)
      requires !listening
      ensures started == possible
    {
      return possible;
    }

    method SetListener(enabled: bool, startPossible: bool, stopClean: bool, fileSaved: bool) returns (ok: bool)
      requires AtRest()
      modifies this`diskConfig, this`dispatcherConfig, this`config, this`listening,
               this`events, this`writer, this`meanings
      ensures AtRest() && D.SameVersion(config, old(config))
      ensures ok <==> (old(config).listenerEnabled == old(listening) == enabled)
                      || (fileSaved && if enabled then startPossible else !old(listening) || stopClean)
      ensures listening == (ok && enabled)
      ensures config == if ok then old(config).(listenerEnabled := enabled)
                        else if enabled && !startPossible && fileSaved then old(config).(listenerEnabled := false)
                        else old(config)
      ensures config != old(config) ==> SameConfig(config)
    {
      FlagIsStorable(enabled);
      FlagIsStorable(false);
      if config.listenerEnabled == enabled && listening == enabled {
        return true;
      }
      var candidate := config.(listenerEnabled := enabled);
      if enabled {
        var started := StartListener(startPossible);
        if !started {
          candidate := candidate.(listenerEnabled := false);
          SaveConfig(Settings(candidate), candidate, fileSaved);
          if fileSaved {
            FinishWrite(candidate);
          }
          return false;
        }
        SaveConfig(Settings(candidate), candidate, fileSaved);
        if !fileSaved {
          return false;
        }
        listening := true;
      } else {
        if listening {
          listening := false;
          if !stopClean {
            return false;
          }
        }
        SaveConfig(Settings(candidate), candidate, fileSaved);
        if !fileSaved {
          return false;
        }
      }
      FinishWrite(candidate);
      return true;
    }

    lemma {:induction false} AddressIsStorable(bindAddress: Address, port: nat)
      requires Followed()
      ensures Valid(config.(bindAddress := bindAddress, port := port)) <==> bindAddress.bindAllowed && port != 0
    {
      ReplayKeepsInv(start, events);
    }

    static function Settings(c: AppConfig): D.WriteOp {
      D.ChangeSettings(c.listenerEnabled, c.bindAddress, c.port, c.startAfterLogin)
    }

    /** A new address: refused while listening; the certificate is renewed when the host changes; secrets are
        saved before the configuration, and a failed save restores what memory held. */
    method Reconfigure(bindAddress: Address, port: nat, provisioned: Option<nat>, secretsSaved: bool,
                       fileSaved: bool, secretsRestored: bool) returns (ok: bool)
      requires AtRest()
      modifies this`diskConfig, this`diskSecrets, this`dispatcherConfig, this`config, this`secrets,
               this`events, this`writer, this`meanings
      ensures AtRest() && D.SameVersion(config, old(config))
      ensures ok <==> !listening && bindAddress.bindAllowed && port != 0
                      && (old(secrets.host) == bindAddress.text || provisioned.Some?) && secretsSaved && fileSaved
      ensures ok ==> config == old(config).(bindAddress := bindAddress, port := port)
                     && SameConfig(config) && secrets == diskSecrets
                     && secrets == if old(secrets.host) == bindAddress.text then old(secrets)
                                   else Secrets(old(secrets.token), bindAddress.text, provisioned.value)
      ensures !ok ==> secrets == old(secrets) && config == old(config) && diskConfig == old(diskConfig)
      ensures !ok && (!secretsSaved || secretsRestored) ==> diskSecrets == old(diskSecrets) || diskSecrets == secrets
    {
      if listening {
        return false;
      }
      AddressIsStorable(bindAddress, port);
      var candidate := config.(bindAddress := bindAddress, port := port);
      var valid := Validate(candidate);
      if !valid {
        return false;
      }
      var previous := secrets;
      if secrets.host != bindAddress.text {
        if provisioned.None? {
          return false;
        }
        secrets := secrets.(host := bindAddress.text, tls := provisioned.value);
      }
      if !secretsSaved {
        secrets := previous;
        return false;
      }
      diskSecrets := secrets;
      SaveConfig(Settings(candidate), candidate, fileSaved);
      if !fileSaved {
        secrets := previous;
        if secretsRestored {
          diskSecrets := secrets;
        }
        return false;
      }
      FinishWrite(candidate);
      return true;
    }

    /** New token and certificate: the listener is stopped first and restarted afterwards; when that fails,
        the configuration is paused. */
    method RotateCredentials(stopClean: bool, replacement: Option<(string, nat)>, secretsSaved: bool,
                             restartPossible: bool, fileSaved: bool) returns (ok: bool)
      requires AtRest()
      modifies this`diskConfig, this`diskSecrets, this`dispatcherConfig, this`config, this`secrets, this`listening,
               this`events, this`writer, this`meanings
      ensures AtRest() && D.SameVersion(config, old(config))
      ensures var replaced := (!old(listening) || stopClean) && replacement.Some? && secretsSaved;
              (ok <==> replaced && (!old(listening) || restartPossible))
              && secrets == (if replaced
                             then Secrets(replacement.value.0, old(config).bindAddress.text, replacement.value.1)
                             else old(secrets))
              && diskSecrets == (if replaced then secrets else old(diskSecrets))
              && config == (if replaced && old(listening) && !restartPossible && fileSaved
                            then old(config).(listenerEnabled := false) else old(config))
      ensures listening == (old(listening) && stopClean && restartPossible)
    {
      FlagIsStorable(false);
      var wasRunning := listening;
      if wasRunning {
        listening := false;
        if !stopClean {
          return false;
        }
      }
      var previous := secrets;
      if replacement.Some? {
        secrets := Secrets(replacement.value.0, config.bindAddress.text, replacement.value.1);
      }
      if replacement.None? || !secretsSaved {
        secrets := previous;
        if wasRunning {
          listening := StartListener(restartPossible);
        }
        return false;
      }
      diskSecrets := secrets;
      if wasRunning {
        var started := StartListener(restartPossible);
        if !started {
          var paused := config.(listenerEnabled := false);
          SaveConfig(Settings(paused), paused, fileSaved);
          if fileSaved {
            FinishWrite(paused);
          }
          return false;
        }
        listening := true;
      }
      return true;
    }
  }
}

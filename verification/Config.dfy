/** The daemon's configuration: publishing the phrase table, validation, and the size of the served table. */
module Config {
  import opened Common
  import opened Domain

  const CONFIG_VERSION := 1
  const MAX_ACTIONS := 128

  /** What an action runs.  `wellFormed` is the outcome of the checks on names, paths and arguments, which
      look at nothing else in the configuration. */
  datatype Definition = Definition(text: string, wellFormed: bool)

  datatype CustomAction = CustomAction(id: ActionId, enabled: bool, phrase: Option<string>, definition: Definition)

  datatype PublishedVoiceConfig = PublishedVoiceConfig(
    schema: nat, revision: U64, actionsRevision: U64, commands: seq<ParsedCommand>)

  /** `bindAllowed` of an address: private, loopback or link-local IPv4. */
  datatype Address = Address(text: string, bindAllowed: bool)

  datatype AppConfig = AppConfig(
    version: nat, listenerEnabled: bool, bindAddress: Address, port: nat, startAfterLogin: bool,
    actions: seq<CustomAction>, actionsRevision: U64,
    published: Option<PublishedVoiceConfig>, acknowledged: Option<U64>)

  const DEFAULT_CONFIG := AppConfig(CONFIG_VERSION, false, Address("127.0.0.1", true), 8443, false, [], 0, None, None)

  /** The commands of the enabled actions that have a phrase, in order. */
  function EnabledCommands(actions: seq<CustomAction>): seq<ParsedCommand> {
    if actions == [] then []
    else
      var first, rest := actions[0], EnabledCommands(actions[1..]);
      if first.enabled && first.phrase.Some? then [VoiceCommand(first.phrase.value, first.id)] + rest else rest
  }

  /** The commands of all actions that have a phrase, in order. */
  function DraftCommands(actions: seq<CustomAction>): seq<VoiceCommand> {
    if actions == [] then []
    else
      var first, rest := actions[0], DraftCommands(actions[1..]);
      if first.phrase.Some? then [VoiceCommand(first.phrase.value, first.id)] + rest else rest
  }

  predicate UniqueIds(actions: seq<CustomAction>) {
    forall i, j | 0 <= i < j < |actions| :: actions[i].id != actions[j].id
  }

  predicate ActionsValid(actions: seq<CustomAction>) {
    |actions| <= MAX_ACTIONS
    && |EnabledCommands(actions)| <= MAX_VOICE_ACTIONS
    && DraftsValid(DraftCommands(actions))
    && UniqueIds(actions)
    && forall i | 0 <= i < |actions| :: actions[i].definition.wellFormed
  }

  predicate PublishedValid(published: Option<PublishedVoiceConfig>, actionsRevision: U64) {
    published.None?
    || (published.value.schema == VOICE_CONFIG_SCHEMA && published.value.revision != 0
        && published.value.actionsRevision <= actionsRevision && CommandsValid(published.value.commands))
  }

  predicate AcknowledgedValid(acknowledged: Option<U64>, published: Option<PublishedVoiceConfig>) {
    acknowledged.None?
    || (acknowledged.value != 0 && published.Some? && acknowledged.value <= published.value.revision)
  }

  predicate Valid(c: AppConfig) {
    c.version == CONFIG_VERSION && c.port != 0 && c.bindAddress.bindAllowed
    && ActionsValid(c.actions)
    && PublishedValid(c.published, c.actionsRevision)
    && AcknowledgedValid(c.acknowledged, c.published)
  }

  /** The validation with its set of ids; the order of the tests is the daemon's. */
  method Validate(c: AppConfig) returns (valid: bool)
    ensures valid <==> Valid(c)
  {
    if c.version != CONFIG_VERSION || c.port == 0 || |c.actions| > MAX_ACTIONS || !c.bindAddress.bindAllowed {
      return false;
    }
    if |EnabledCommands(c.actions)| > MAX_VOICE_ACTIONS {
      return false;
    }
    var drafts := ValidateVoiceCommandDrafts(DraftCommands(c.actions));
    if !drafts {
      return false;
    }
    if c.published.Some? {
      var published := c.published.value;
      if published.schema != VOICE_CONFIG_SCHEMA || published.revision == 0
         || published.actionsRevision > c.actionsRevision {
        return false;
      }
      var table := ValidateVoiceCommands(published.commands);
      if !table {
        return false;
      }
    }
    if c.acknowledged.Some?
       && (c.acknowledged.value == 0 || c.published.None? || c.acknowledged.value > c.published.value.revision) {
      return false;
    }
    var ids: set<string> := {};
    for n := 0 to |c.actions|
      invariant ids == set k | 0 <= k < n :: c.actions[k].id
      invariant UniqueIds(c.actions[..n])
      invariant forall k | 0 <= k < n :: c.actions[k].definition.wellFormed
    {
      var action := c.actions[n];
      if action.id in ids {
        return false;
      }
      ids := ids + {action.id};
      if !action.definition.wellFormed {
        return false;
      }
    }
    assert c.actions[..|c.actions|] == c.actions;
    return true;
  }

  function NextRevision(published: Option<PublishedVoiceConfig>): (revision: nat)
    ensures revision != 0
  {
    if published.None? then 1 else published.value.revision + 1
  }

  function Publication(c: AppConfig): PublishedVoiceConfig
    requires NextRevision(c.published) < U64_LIMIT
  {
    PublishedVoiceConfig(VOICE_CONFIG_SCHEMA, NextRevision(c.published), c.actionsRevision, EnabledCommands(c.actions))
  }

  /** What publishing makes of a configuration, or nothing when it fails. */
  function Published(c: AppConfig): Option<AppConfig> {
    if NextRevision(c.published) >= U64_LIMIT || !CommandsValid(EnabledCommands(c.actions)) then None
    else
      var candidate := c.(published := Some(Publication(c)));
      if Valid(candidate) then Some(candidate) else None
  }

  method PublishVoiceConfig(c: AppConfig) returns (result: Option<AppConfig>)
    ensures result == Published(c)
  {
    var revision := NextRevision(c.published);
    if revision >= U64_LIMIT {
      return None;
    }
    var commands := EnabledCommands(c.actions);
    var table := ValidateVoiceCommands(commands);
    if !table {
      return None;
    }
    var candidate := c.(published :=
      Some(PublishedVoiceConfig(VOICE_CONFIG_SCHEMA, revision, c.actionsRevision, commands)));
    var valid := Validate(candidate);
    return if valid then Some(candidate) else None;
  }

  // Publishing always succeeds on a valid configuration.

  lemma {:induction false} EnabledIsDraft(actions: seq<CustomAction>, k: nat) returns (i: nat)
    requires k < |EnabledCommands(actions)|
    ensures i < |DraftCommands(actions)| && DraftCommands(actions)[i] == EnabledCommands(actions)[k]
  {
    var first := actions[0];
    if first.enabled && first.phrase.Some? && k == 0 {
      i := 0;
    } else {
      i := EnabledIsDraft(actions[1..], if first.enabled && first.phrase.Some? then k - 1 else k);
      i := if first.phrase.Some? then i + 1 else i;
    }
  }

  /** Dropping disabled actions keeps a draft table valid: the enabled commands are a subsequence of it. */
  lemma {:induction false} EnabledCommandsValid(actions: seq<CustomAction>)
    requires DraftsValid(DraftCommands(actions))
    ensures DraftsValid(EnabledCommands(actions))
  {
    if actions == [] {
    } else if actions[0].phrase.Some? {
      var drafts, rest, enabled := DraftCommands(actions), DraftCommands(actions[1..]), EnabledCommands(actions[1..]);
      assert rest == drafts[1..];
      EnabledCommandsValid(actions[1..]);
      forall k | 0 <= k < |enabled|
        ensures !Clash(drafts[0], enabled[k])
      {
        var i := EnabledIsDraft(actions[1..], k);
        assert drafts[i + 1] == enabled[k];
      }
    } else {
      EnabledCommandsValid(actions[1..]);
    }
  }

  /** Publishing a valid configuration fails only when the revision counter is exhausted; otherwise the
      result is valid, its revision is one higher and its table holds the enabled phrases of the actions,
      stamped with their revision; nothing else changes. */
  lemma {:induction false} PublishingMakesProgress(c: AppConfig)
    requires Valid(c)
    ensures Published(c).None? <==> c.published.Some? && c.published.value.revision == U64_LIMIT - 1
    ensures Published(c).Some? ==>
              var after := Published(c).value;
              Valid(after) && after.published.Some?
              && after.published.value.revision == (if c.published.None? then 1 else c.published.value.revision + 1)
              && after.published.value.actionsRevision == c.actionsRevision
              && after.published.value.commands == EnabledCommands(c.actions)
              && after == c.(published := after.published)
  {
    EnabledCommandsValid(c.actions);
  }

  predicate HasPhrase(action: CustomAction, onlyEnabled: bool) {
    action.phrase.Some? && (onlyEnabled ==> action.enabled)
  }

  predicate Increasing(at: seq<nat>) {
    forall j, k | 0 <= j < k < |at| :: at[j] < at[k]
  }

  predicate CommandOf(command: VoiceCommand, actions: seq<CustomAction>, i: nat, onlyEnabled: bool) {
    i < |actions| && HasPhrase(actions[i], onlyEnabled)
    && command == VoiceCommand(actions[i].phrase.value, actions[i].id)
  }

  /** From action `n` on, `at` lists in ascending order exactly the actions that have a phrase (of the enabled
      ones, if only these are wanted), and the commands are their phrases and ids, one each and in order. */
  predicate ListsPhrases(commands: seq<VoiceCommand>, at: seq<nat>, actions: seq<CustomAction>, n: nat,
                         onlyEnabled: bool) {
    |at| == |commands| && Increasing(at)
    && (forall k | 0 <= k < |at| :: n <= at[k] && CommandOf(commands[k], actions, at[k], onlyEnabled))
    && forall i | n <= i < |actions| :: HasPhrase(actions[i], onlyEnabled) ==> i in at
  }

  lemma {:induction false} ListsInFront(command: VoiceCommand, commands: seq<VoiceCommand>, at: seq<nat>,
                                        actions: seq<CustomAction>, n: nat, onlyEnabled: bool)
    requires ListsPhrases(commands, at, actions, n + 1, onlyEnabled) && CommandOf(command, actions, n, onlyEnabled)
    ensures ListsPhrases([command] + commands, [n] + at, actions, n, onlyEnabled)
  {
    var all := [n] + at;
    assert forall k | 0 < k < |all| :: all[k] == at[k - 1];
    assert forall i :: i in all <==> i == n || i in at;
  }

  lemma {:induction false} EnabledListed(actions: seq<CustomAction>, n: nat) returns (at: seq<nat>)
    requires n <= |actions|
    ensures ListsPhrases(EnabledCommands(actions[n..]), at, actions, n, true)
    decreases |actions| - n
  {
    if n == |actions| {
      at := [];
    } else {
      var later := EnabledListed(actions, n + 1);
      assert actions[n..][1..] == actions[n + 1..];
      if HasPhrase(actions[n], true) {
        var command := VoiceCommand(actions[n].phrase.value, actions[n].id);
        ListsInFront(command, EnabledCommands(actions[n + 1..]), later, actions, n, true);
        at := [n] + later;
      } else {
        at := later;
      }
    }
  }

  lemma {:induction false} DraftsListed(actions: seq<CustomAction>, n: nat) returns (at: seq<nat>)
    requires n <= |actions|
    ensures ListsPhrases(DraftCommands(actions[n..]), at, actions, n, false)
    decreases |actions| - n
  {
    if n == |actions| {
      at := [];
    } else {
      var later := DraftsListed(actions, n + 1);
      assert actions[n..][1..] == actions[n + 1..];
      if HasPhrase(actions[n], false) {
        var command := VoiceCommand(actions[n].phrase.value, actions[n].id);
        ListsInFront(command, DraftCommands(actions[n + 1..]), later, actions, n, false);
        at := [n] + later;
      } else {
        at := later;
      }
    }
  }

  /** What validation looks at are the phrases of all actions, enabled or not, each once and in order. */
  lemma {:induction false} ValidatesEveryPhrase(c: AppConfig) returns (at: seq<nat>)
    ensures ListsPhrases(DraftCommands(c.actions), at, c.actions, 0, false)
  {
    at := DraftsListed(c.actions, 0);
    assert c.actions[0..] == c.actions;
  }

  /** What is published is a valid configuration, and its table holds the phrase of every enabled action that
      has one, and nothing else, each once and in the order of the actions. */
  lemma {:induction false} PublishesEveryEnabledPhrase(c: AppConfig) returns (at: seq<nat>)
    requires Published(c).Some?
    ensures Valid(Published(c).value) && Published(c).value.published.Some?
    ensures ListsPhrases(Published(c).value.published.value.commands, at, c.actions, 0, true)
  {
    at := EnabledListed(c.actions, 0);
    assert c.actions[0..] == c.actions;
  }

  /** Each published command names an enabled action with that phrase. */
  lemma {:induction false} CommandNamesAction(actions: seq<CustomAction>, k: nat) returns (i: nat)
    requires k < |EnabledCommands(actions)|
    ensures i < |actions| && actions[i].enabled && actions[i].phrase.Some?
    ensures EnabledCommands(actions)[k] == VoiceCommand(actions[i].phrase.value, actions[i].id)
  {
    var at := EnabledListed(actions, 0);
    assert actions[0..] == actions;
    i := at[k];
  }

  // The served JSON text and its length.

  function Digit(d: nat): char
    requires d < 10
  {
    '0' + d as char
  }

  function Decimal(n: nat): (text: string) {
    if n < 10 then [Digit(n)] else Decimal(n / 10) + [Digit(n % 10)]
  }

  function Power10(k: nat): (p: nat)
    ensures p > 0
  {
    if k == 0 then 1 else 10 * Power10(k - 1)
  }

  function DecimalValue(text: string): int {
    if text == "" then 0
    else 10 * DecimalValue(text[..|text| - 1]) + (text[|text| - 1] as int - '0' as int)
  }

  lemma {:induction false} DecimalReadBack(n: nat)
    ensures DecimalValue(Decimal(n)) == n
  {
    if n < 10 {
      assert Decimal(n)[..0] == "";
    } else {
      DecimalReadBack(n / 10);
      assert Decimal(n)[..|Decimal(n)| - 1] == Decimal(n / 10);
    }
  }

  lemma {:induction false} DecimalWidth(n: nat, k: nat)
    requires 0 < k && n < Power10(k)
    ensures |Decimal(n)| <= k
  {
    if n < 10 {
    } else {
      assert n / 10 < Power10(k - 1);
      DecimalWidth(n / 10, k - 1);
    }
  }

  lemma {:induction false} U64Width(n: U64)
    ensures |Decimal(n)| <= 20
  {
    assert Power10(20) == 100_000_000_000_000_000_000 by {
      assert Power10(4) == 10_000;
      assert Power10(8) == 100_000_000;
      assert Power10(12) == 1_000_000_000_000;
      assert Power10(16) == 10_000_000_000_000_000;
    }
    DecimalWidth(n, 20);
  }

  function HexDigit(d: nat): char
    requires d < 16
  {
    if d < 10 then Digit(d) else 'a' + (d - 10) as char
  }

  /** A JSON string body: quotation mark, reverse solidus and control characters take an escape. */
  function EscapedChar(c: char): string {
    if c == '"' || c == '\\' then ['\\', c]
    else if c == '\n' then "\\n"
    else if c == '\r' then "\\r"
    else if c == '\t' then "\\t"
    else if c as int == 8 then "\\b"
    else if c as int == 12 then "\\f"
    else if c < ' ' then "\\u00" + [HexDigit(c as int / 16), HexDigit(c as int % 16)]
    else [c]
  }

  function Escaped(s: string): string {
    if s == [] then [] else EscapedChar(s[0]) + Escaped(s[1..])
  }

  predicate Plain(s: string) {
    forall i | 0 <= i < |s| :: s[i] >= ' ' && s[i] != '"' && s[i] != '\\'
  }

  lemma {:induction false} PlainNeedsNoEscape(s: string)
    requires Plain(s)
    ensures Escaped(s) == s
  {
    if s == [] {
    } else {
      assert Plain(s[1..]);
      PlainNeedsNoEscape(s[1..]);
    }
  }

  function JsonString(s: string): string {
    "\"" + Escaped(s) + "\""
  }

  function CommandJson(c: VoiceCommand): string {
    "{\"phrase\":" + JsonString(c.phrase) + ",\"action_id\":" + JsonString(c.actionId) + "}"
  }

  function CommandsJson(commands: seq<VoiceCommand>): string {
    if commands == [] then ""
    else if |commands| == 1 then CommandJson(commands[0])
    else CommandJson(commands[0]) + "," + CommandsJson(commands[1..])
  }

  /** The compact serialisation of the published table, fields in declaration order. */
  function SnapshotJson(p: PublishedVoiceConfig): string {
    "{\"schema\":" + Decimal(p.schema) + ",\"revision\":" + Decimal(p.revision)
    + ",\"actions_revision\":" + Decimal(p.actionsRevision) + ",\"commands\":[" + CommandsJson(p.commands) + "]}"
  }

  lemma {:induction false} CommandsJsonLength(commands: seq<ParsedCommand>)
    requires forall i | 0 <= i < |commands| :: IsPhrase(commands[i].phrase)
    ensures |CommandsJson(commands)| <= 156 * |commands|
  {
    if commands == [] {
    } else {
      var first := commands[0];
      assert Plain(first.phrase) && Plain(first.actionId);
      PlainNeedsNoEscape(first.phrase);
      PlainNeedsNoEscape(first.actionId);
      assert |CommandJson(first)| == 28 + |first.phrase| + |first.actionId|;
      if |commands| > 1 {
        CommandsJsonLength(commands[1..]);
      }
    }
  }

  /** The reply to a fetch: the table in the shared configuration, unless it is missing or stale, or its
      text is over the limit. */
  datatype ServeResult = Served(table: PublishedVoiceConfig) | NotApplied | ApplyRequired | ServerError

  function Serve(shared: AppConfig): ServeResult {
    if shared.published.None? then NotApplied
    else if shared.published.value.actionsRevision != shared.actionsRevision then ApplyRequired
    else if |SnapshotJson(shared.published.value)| > VOICE_CONFIG_LIMIT then ServerError
    else Served(shared.published.value)
  }

  /** A valid configuration is served its published table exactly while no action was saved since. */
  lemma {:induction false} ServedExactly(shared: AppConfig)
    requires Valid(shared)
    ensures Serve(shared) == NotApplied <==> shared.published.None?
    ensures Serve(shared) == ApplyRequired
            <==> shared.published.Some? && shared.published.value.actionsRevision != shared.actionsRevision
    ensures Serve(shared).Served?
            <==> shared.published.Some? && shared.published.value.actionsRevision == shared.actionsRevision
    ensures Serve(shared).Served? ==> Serve(shared).table == shared.published.value
  {
    ServedTableFits(shared);
  }

  /** Serving a valid configuration never fails on length. */
  lemma {:induction false} ServedTableFits(shared: AppConfig)
    requires Valid(shared)
    ensures shared.published.Some? ==> |SnapshotJson(shared.published.value)| <= VOICE_CONFIG_LIMIT
    ensures Serve(shared) != ServerError
  {
    if shared.published.Some? {
      var p := shared.published.value;
      CommandsJsonLength(p.commands);
      U64Width(p.revision);
      U64Width(p.actionsRevision);
    }
  }
}

/** The command table handed to the recogniser: the built-in words and the published phrases under one
    numbering. */
module SpeechTable {
  import opened Common
  import opened Domain
  import opened VoiceService

  datatype Entry = Entry(id: int, text: string)

  const BUILTIN_COMMANDS := [
    Entry(WAKE_COMMAND_ID, "wake"),
    Entry(MEDIA_COMMAND_FIRST_ID + 0, "play"),
    Entry(MEDIA_COMMAND_FIRST_ID + 1, "pause"),
    Entry(MEDIA_COMMAND_FIRST_ID + 2, "next"),
    Entry(MEDIA_COMMAND_FIRST_ID + 3, "back"),
    Entry(MEDIA_COMMAND_FIRST_ID + 4, "mute"),
    Entry(MEDIA_COMMAND_FIRST_ID + 5, "unmute"),
    Entry(SYNC_COMMAND_ID, "update")]

  /** What a bounded copy into a field of `size` characters keeps. */
  function Copied(s: string, size: nat): (kept: string)
    requires size > 0
    ensures kept <= s && |kept| < size && (|kept| < size - 1 ==> kept == s)
  {
    if |s| < size then s else s[..size - 1]
  }

  function CustomEntry(config: Snapshot, i: nat, size: nat): Entry
    requires i < |config.commands| && size > 0
  {
    Entry(CUSTOM_COMMAND_FIRST_ID + i, Lowercase(Copied(config.commands[i].phrase, size)))
  }

  /** `build_speech_commands`, with the size of the recogniser's phrase field. */
  method BuildSpeechCommands(config: Snapshot, size: nat) returns (table: Option<seq<Entry>>)
    requires size > 6
    ensures table.Some? <==> Startable(config)
    ensures table.Some? ==> |table.value| == 8 + |config.commands|
    ensures table.Some? ==> table.value[..8] == BUILTIN_COMMANDS
    ensures table.Some? ==>
              forall i | 0 <= i < |config.commands| :: table.value[8 + i] == CustomEntry(config, i, size)
  {
    if config.revision != 0 && !SnapshotOk(config) {
      return None;
    }
    var commands: seq<Entry> := [];
    for k := 0 to |BUILTIN_COMMANDS|
      invariant commands == BUILTIN_COMMANDS[..k]
    {
      var builtin := BUILTIN_COMMANDS[k];
      commands := commands + [Entry(builtin.id, Copied(builtin.text, size))];
    }
    for index := 0 to |config.commands|
      invariant |commands| == 8 + index && commands[..8] == BUILTIN_COMMANDS
      invariant forall i | 0 <= i < index :: commands[8 + i] == CustomEntry(config, i, size)
    {
      var text := Copied(config.commands[index].phrase, size);
      commands := commands + [Entry(CUSTOM_COMMAND_FIRST_ID + index, Lowercase(text))];
    }
    return Some(commands);
  }

  predicate IsTable(table: seq<Entry>, config: Snapshot, size: nat)
    requires size > 0
  {
    |table| == 8 + |config.commands| && table[..8] == BUILTIN_COMMANDS
    && forall i | 0 <= i < |config.commands| :: table[8 + i] == CustomEntry(config, i, size)
  }

  lemma {:induction false} BuiltinsAreReserved(k: nat)
    requires k < 8
    ensures BUILTIN_COMMANDS[k].text in RESERVED && InTable(BUILTIN_COMMANDS[k].id, BUILTINS)
    ensures BUILTIN_COMMANDS[k].id == k + 1
  {
    assert RESERVED[k + 1] == BUILTIN_COMMANDS[k].text;
  }

  lemma {:induction false} BuiltinsDiffer(i: nat, j: nat)
    requires i < j < 8
    ensures BUILTIN_COMMANDS[i].text != BUILTIN_COMMANDS[j].text
  {
    var texts := ["wake", "play", "pause", "next", "back", "mute", "unmute", "update"];
    assert BUILTIN_COMMANDS[i].text == texts[i] && BUILTIN_COMMANDS[j].text == texts[j];
    assert |texts[i]| == |texts[j]| ==> texts[i][0] != texts[j][0] || texts[i][1] != texts[j][1];
  }

  lemma {:induction false} BuiltinAt(table: seq<Entry>, config: Snapshot, size: nat, k: nat)
    requires size > 0 && IsTable(table, config, size) && k < 8
    ensures table[k] == BUILTIN_COMMANDS[k] && table[k].text in RESERVED && table[k].id == k + 1
  {
    assert table[..8][k] == table[k];
    BuiltinsAreReserved(k);
  }

  lemma {:induction false} CustomAt(table: seq<Entry>, config: Snapshot, size: nat, i: nat)
    requires TableOk(config) && size >= MAX_VOICE_PHRASE_BYTES + 1 && IsTable(table, config, size)
    requires i < |config.commands|
    ensures table[8 + i] == Entry(CUSTOM_COMMAND_FIRST_ID + i, Lowercase(config.commands[i].phrase))
    ensures CommandFromId(table[8 + i].id) == Custom(i) && table[8 + i].text !in RESERVED
  {
    assert SnapshotOk(config) && IsPhrase(config.commands[i].phrase);
    assert table[8 + i] == CustomEntry(config, i, size);
    assert Copied(config.commands[i].phrase, size) == config.commands[i].phrase;
  }

  lemma {:induction false} EntriesDiffer(table: seq<Entry>, config: Snapshot, size: nat, i: nat, j: nat)
    requires TableOk(config) && size >= MAX_VOICE_PHRASE_BYTES + 1 && IsTable(table, config, size)
    requires i < j < |table|
    ensures table[i].id != table[j].id && table[i].text != table[j].text
  {
    if j < 8 {
      BuiltinAt(table, config, size, i);
      BuiltinAt(table, config, size, j);
      BuiltinsDiffer(i, j);
    } else {
      CustomAt(table, config, size, j - 8);
      if i < 8 {
        BuiltinAt(table, config, size, i);
      } else {
        CustomAt(table, config, size, i - 8);
        assert !Clash(config.commands[i - 8], config.commands[j - 8]);
      }
    }
  }

  /** The recogniser's table is unambiguous: with a phrase field of at least 64 characters no text is cut, no
      two entries share an id or a text, built-in words and published phrases included, and its ids are
      exactly those an event can carry. */
  lemma {:induction false} TableIsUnambiguous(table: seq<Entry>, config: Snapshot, size: nat)
    requires TableOk(config) && size >= MAX_VOICE_PHRASE_BYTES + 1 && IsTable(table, config, size)
    ensures forall i, j | 0 <= i < j < |table| :: table[i].id != table[j].id && table[i].text != table[j].text
    ensures forall i | 0 <= i < |config.commands| :: table[8 + i].text == Lowercase(config.commands[i].phrase)
    ensures forall id :: InTable(id, config) <==> exists k | 0 <= k < |table| :: table[k].id == id
  {
    forall i, j | 0 <= i < j < |table|
      ensures table[i].id != table[j].id && table[i].text != table[j].text
    {
      EntriesDiffer(table, config, size, i, j);
    }
    forall i | 0 <= i < |config.commands|
      ensures table[8 + i].text == Lowercase(config.commands[i].phrase)
    {
      CustomAt(table, config, size, i);
    }
    forall k | 0 <= k < |table|
      ensures table[k].id == if k < 8 then k + 1 else CUSTOM_COMMAND_FIRST_ID + k - 8
    {
      if k < 8 {
        BuiltinAt(table, config, size, k);
      } else {
        CustomAt(table, config, size, k - 8);
      }
    }
    forall id | InTable(id, config)
      ensures exists k | 0 <= k < |table| :: table[k].id == id
    {
      var k := if id <= SYNC_COMMAND_ID then id - 1 else 8 + id - CUSTOM_COMMAND_FIRST_ID;
      assert table[k].id == id;
    }
  }

  /** Hence a recognised text has one meaning: if an entry's text is a published phrase up to letter case,
      its id is taken as that phrase's index. */
  lemma {:induction false} PhraseHasOneMeaning(table: seq<Entry>, config: Snapshot, size: nat, k: nat, i: nat)
    requires TableOk(config) && size >= MAX_VOICE_PHRASE_BYTES + 1 && IsTable(table, config, size)
    requires k < |table| && i < |config.commands| && table[k].text == Lowercase(config.commands[i].phrase)
    ensures CommandFromId(table[k].id) == Custom(i)
  {
    CustomAt(table, config, size, i);
    if k < 8 + i {
      EntriesDiffer(table, config, size, k, 8 + i);
    } else if 8 + i < k {
      EntriesDiffer(table, config, size, 8 + i, k);
    }
  }
}

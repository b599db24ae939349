/** The firmware's phrase-table test over fixed NUL-terminated buffers, and its agreement with the
    daemon's test of the same table. */
module VoiceConfigPolicy {
  import opened CStrings
  import opened Domain

  const PHRASE_BUFFER := MAX_VOICE_PHRASE_BYTES + 1
  const ID_BUFFER := MAX_ACTION_ID_BYTES + 1

  datatype BufferCommand = BufferCommand(phrase: seq<char>, actionId: seq<char>)

  predicate FitsLayout(command: BufferCommand) {
    |command.phrase| == PHRASE_BUFFER && |command.actionId| == ID_BUFFER
  }

  datatype BufferSnapshot = BufferSnapshot(schema: nat, count: nat, revision: nat, commands: seq<BufferCommand>)

  predicate SnapshotLayout(s: BufferSnapshot) {
    |s.commands| == MAX_VOICE_ACTIONS && forall i | 0 <= i < |s.commands| :: FitsLayout(s.commands[i])
  }

  /** A zero-filled buffer into which the bytes of `s` were copied. */
  function Pad(s: string, size: nat): (buffer: seq<char>)
    requires |s| <= size
    ensures |buffer| == size
  {
    s + seq(size - |s|, _ => NUL)
  }

  lemma {:induction false} PaddedString(s: string, size: nat)
    requires |s| < size && NUL !in s
    ensures CString(Pad(s, size)) == s
  {
    assert Pad(s, size)[..|s|] == s;
    TerminatedAt(Pad(s, size), |s|);
  }

  /** In-place lower-casing up to the terminator. */
  method PhraseNormalize(phrase: array<char>)
    requires NUL in phrase[..]
    modifies phrase
    ensures CString(phrase[..]) == Lowercase(CString(old(phrase[..])))
  {
    var i := 0;
    ghost var before := phrase[..];
    ghost var length := |CString(before)|;
    while phrase[i] != NUL
      invariant 0 <= i <= length < phrase.Length
      invariant forall k | 0 <= k < i :: phrase[k] == LowerChar(before[k])
      invariant forall k | i <= k < phrase.Length :: phrase[k] == before[k]
      decreases length - i
    {
      StopsAtLength(before, i);
      phrase[i] := LowerChar(phrase[i]);
      i := i + 1;
    }
    StopsAtLength(before, i);
    assert phrase[..][..i] == Lowercase(CString(before));
    TerminatedAt(phrase[..], i);
  }

  /** `memchr(buffer, 0, sizeof(buffer)) != nullptr`. */
  method HasTerminator(buffer: seq<char>) returns (found: bool)
    ensures found <==> NUL in buffer
  {
    for i := 0 to |buffer|
      invariant NUL !in buffer[..i]
    {
      if buffer[i] == NUL {
        return true;
      }
    }
    assert buffer[..|buffer|] == buffer;
    return false;
  }

  /** What the scan of a phrase accepts: the part of `IsPhrase` that needs no table of words. */
  predicate IsPhraseShape(p: string) {
    2 <= |p| <= MAX_VOICE_PHRASE_BYTES
    && (forall i | 0 <= i < |p| :: IsLetter(p[i]) || p[i] == ' ')
    && p[0] != ' ' && p[|p| - 1] != ' '
    && (forall i | 0 < i < |p| :: p[i] == ' ' ==> p[i - 1] != ' ')
  }

  lemma {:induction false} PhraseIsShapeAndNoWord(p: string)
    ensures IsPhrase(p) <==> IsPhraseShape(p) && Lowercase(p) !in RESERVED
  {
  }

  method PhraseIsValid(phrase: seq<char>) returns (valid: bool)
    requires |phrase| == PHRASE_BUFFER && NUL in phrase
    ensures valid <==> IsPhraseShape(CString(phrase))
  {
    ghost var text := CString(phrase);
    var length := 0;
    while phrase[length] != NUL && length <= MAX_VOICE_PHRASE_BYTES
      invariant 0 <= length <= |text| < |phrase|
      invariant forall k | 0 <= k < length :: IsLetter(text[k]) || text[k] == ' '
      invariant length > 0 ==> text[0] != ' '
      invariant forall k | 0 < k < length :: text[k] == ' ' ==> text[k - 1] != ' '
      decreases |text| - length
    {
      var ch := phrase[length];
      StopsAtLength(phrase, length);
      if !(IsLetter(ch) || ch == ' ') {
        return false;
      }
      if ch == ' ' && (length == 0 || phrase[length - 1] == ' ') {
        return false;
      }
      length := length + 1;
    }
    StopsAtLength(phrase, length);
    return length >= 2 && length <= MAX_VOICE_PHRASE_BYTES && phrase[length - 1] != ' ';
  }

  method ActionIdIsValid(id: seq<char>) returns (valid: bool)
    requires |id| == ID_BUFFER && NUL in id
    ensures valid <==> IsActionId(CString(id))
  {
    ghost var text := CString(id);
    assert |text| > 0 ==> text[0] == id[0];
    if id[0] < 'a' || id[0] > 'z' {
      return false;
    }
    var length := 0;
    while id[length] != NUL && length <= MAX_ACTION_ID_BYTES
      invariant 0 <= length <= |text| < |id|
      invariant forall k | 0 <= k < length :: IsLower(text[k]) || IsDigit(text[k]) || text[k] == '_'
      decreases |text| - length
    {
      var ch := id[length];
      StopsAtLength(id, length);
      if !(IsLower(ch) || IsDigit(ch) || ch == '_') {
        return false;
      }
      length := length + 1;
    }
    StopsAtLength(id, length);
    return length >= 1 && length <= MAX_ACTION_ID_BYTES;
  }

  /** The reserved-word scan: the lower-cased phrase against each word, stopping at the first terminator. */
  method PhraseReserved(phrase: seq<char>) returns (reserved: bool)
    requires NUL in phrase
    ensures reserved <==> Lowercase(CString(phrase)) in RESERVED
  {
    var words := RESERVED;
    for n := 0 to |words|
      invariant Lowercase(CString(phrase)) !in words[..n]
    {
      reserved := MatchesWord(phrase, words[n]);
      if reserved {
        return;
      }
    }
    assert words[..|words|] == RESERVED;
    return false;
  }

  method MatchesWord(phrase: seq<char>, value: string) returns (matches: bool)
    requires NUL in phrase && NUL !in value
    ensures matches <==> Lowercase(CString(phrase)) == value
  {
    ghost var text := CString(phrase);
    var word := value + [NUL];
    assert word[..|value|] == value;
    TerminatedAt(word, |value|);
    var i := 0;
    while phrase[i] != NUL && word[i] != NUL && LowerChar(phrase[i]) == word[i]
      invariant 0 <= i <= |text| && i <= |value|
      invariant forall k | 0 <= k < i :: Lowercase(text)[k] == value[k]
      decreases |text| - i
    {
      StopsAtLength(phrase, i);
      StopsAtLength(word, i);
      i := i + 1;
    }
    StopsAtLength(phrase, i);
    StopsAtLength(word, i);
    EqualExactly(Lowercase(text), value, i);
    return phrase[i] == NUL && word[i] == NUL;
  }

  /** Two strings that agree up to a point where one of them ends or they differ. */
  lemma {:induction false} EqualExactly(a: string, b: string, i: nat)
    requires i <= |a| && i <= |b| && forall k | 0 <= k < i :: a[k] == b[k]
    requires i < |a| && i < |b| ==> a[i] != b[i]
    ensures a == b <==> i == |a| && i == |b|
  {
  }

  method PhrasesEqual(left: seq<char>, right: seq<char>) returns (equal: bool)
    requires NUL in left && NUL in right
    ensures equal <==> Lowercase(CString(left)) == Lowercase(CString(right))
  {
    ghost var a, b := CString(left), CString(right);
    var i := 0;
    while left[i] != NUL && right[i] != NUL && LowerChar(left[i]) == LowerChar(right[i])
      invariant 0 <= i <= |a| && i <= |b|
      invariant forall k | 0 <= k < i :: Lowercase(a)[k] == Lowercase(b)[k]
      decreases |a| - i
    {
      StopsAtLength(left, i);
      StopsAtLength(right, i);
      i := i + 1;
    }
    StopsAtLength(left, i);
    StopsAtLength(right, i);
    EqualExactly(Lowercase(a), Lowercase(b), i);
    return left[i] == NUL && right[i] == NUL;
  }

  /** `strcmp(left, right) == 0`. */
  method StringsEqual(left: seq<char>, right: seq<char>) returns (equal: bool)
    requires NUL in left && NUL in right
    ensures equal <==> CString(left) == CString(right)
  {
    ghost var a, b := CString(left), CString(right);
    var i := 0;
    while left[i] != NUL && left[i] == right[i]
      invariant 0 <= i <= |a| && i <= |b|
      invariant forall k | 0 <= k < i :: a[k] == b[k]
      decreases |a| - i
    {
      StopsAtLength(left, i);
      StopsAtLength(right, i);
      i := i + 1;
    }
    StopsAtLength(left, i);
    StopsAtLength(right, i);
    EqualExactly(a, b, i);
    return left[i] == right[i];
  }

  function Held(command: BufferCommand): VoiceCommand {
    VoiceCommand(CString(command.phrase), CString(command.actionId))
  }

  function HeldAll(entries: seq<BufferCommand>): (commands: seq<VoiceCommand>)
    ensures |commands| == |entries|
  {
    seq(|entries|, i requires 0 <= i < |entries| => Held(entries[i]))
  }

  predicate Terminated(command: BufferCommand) {
    NUL in command.phrase && NUL in command.actionId
  }

  predicate CommandValid(command: VoiceCommand) {
    IsPhrase(command.phrase) && IsActionId(command.actionId)
  }

  predicate ClashFree(commands: seq<VoiceCommand>, command: VoiceCommand) {
    forall j | 0 <= j < |commands| :: !Clash(commands[j], command)
  }

  lemma {:induction false} TableExtends(commands: seq<VoiceCommand>, command: VoiceCommand)
    ensures IdsValid(commands + [command]) && DraftsValid(commands + [command]) <==>
            IdsValid(commands) && DraftsValid(commands) && CommandValid(command) && ClashFree(commands, command)
  {
    var longer := commands + [command];
    assert commands == longer[..|commands|] && command == longer[|commands|];
    if DraftsValid(commands) && ClashFree(commands, command) {
      assert Distinct(longer);
    }
  }

  predicate EntriesValid(entries: seq<BufferCommand>) {
    (forall i | 0 <= i < |entries| :: Terminated(entries[i]))
    && IdsValid(HeldAll(entries)) && DraftsValid(HeldAll(entries))
  }

  lemma {:induction false} EntriesExtend(entries: seq<BufferCommand>, n: nat)
    requires n < |entries|
    ensures EntriesValid(entries[..n + 1]) <==>
            EntriesValid(entries[..n]) && Terminated(entries[n]) && CommandValid(Held(entries[n]))
            && ClashFree(HeldAll(entries[..n]), Held(entries[n]))
  {
    var shorter, longer := entries[..n], entries[..n + 1];
    assert longer == shorter + [entries[n]] && longer[n] == entries[n];
    assert forall k | 0 <= k < n :: shorter[k] == longer[k];
    assert HeldAll(longer) == HeldAll(shorter) + [Held(entries[n])];
    TableExtends(HeldAll(entries[..n]), Held(entries[n]));
  }

  lemma {:induction false} EntriesShrink(entries: seq<BufferCommand>, n: nat)
    requires n <= |entries| && EntriesValid(entries)
    ensures EntriesValid(entries[..n])
  {
    assert HeldAll(entries[..n]) == HeldAll(entries)[..n];
  }

  /** What a stored snapshot must be: schema and revision set, its `count` entries terminated and holding
      a valid table.  Buffers beyond `count` may hold anything. */
  predicate SnapshotValid(s: BufferSnapshot)
    requires SnapshotLayout(s)
  {
    s.schema == VOICE_CONFIG_SCHEMA && s.revision != 0 && s.count <= MAX_VOICE_ACTIONS
    && EntriesValid(s.commands[..s.count])
  }

  method EntryIsValid(command: BufferCommand) returns (valid: bool)
    requires FitsLayout(command)
    ensures valid <==> Terminated(command) && CommandValid(Held(command))
  {
    var phraseEnds := HasTerminator(command.phrase);
    var idEnds := HasTerminator(command.actionId);
    if !phraseEnds || !idEnds {
      return false;
    }
    var shape := PhraseIsValid(command.phrase);
    var reserved := PhraseReserved(command.phrase);
    var id := ActionIdIsValid(command.actionId);
    return shape && !reserved && id;
  }

  method EntriesClash(left: BufferCommand, right: BufferCommand) returns (clash: bool)
    requires Terminated(left) && Terminated(right)
    ensures clash <==> Clash(Held(right), Held(left))
  {
    var samePhrase := PhrasesEqual(left.phrase, right.phrase);
    var sameId := StringsEqual(left.actionId, right.actionId);
    return samePhrase || sameId;
  }

  /** The inner loop: an entry against every earlier one. */
  method ClashesEarlier(earlier: seq<BufferCommand>, entry: BufferCommand) returns (clash: bool)
    requires Terminated(entry) && forall j | 0 <= j < |earlier| :: Terminated(earlier[j])
    ensures !clash <==> ClashFree(HeldAll(earlier), Held(entry))
  {
    ghost var held := HeldAll(earlier);
    for j := 0 to |earlier|
      invariant forall k | 0 <= k < j :: !Clash(held[k], Held(entry))
    {
      clash := EntriesClash(entry, earlier[j]);
      if clash {
        assert Clash(held[j], Held(entry));
        return;
      }
    }
    return false;
  }

  /** The pairwise test of a whole snapshot.  No read leaves a buffer, whatever the buffers hold. */
  method ConfigIsValid(s: BufferSnapshot) returns (valid: bool)
    requires SnapshotLayout(s)
    ensures valid <==> SnapshotValid(s)
  {
    if s.schema != VOICE_CONFIG_SCHEMA || s.revision == 0 || s.count > MAX_VOICE_ACTIONS {
      return false;
    }
    var entries := s.commands[..s.count];
    for i := 0 to s.count
      invariant EntriesValid(entries[..i])
    {
      EntriesExtend(entries, i);
      if EntriesValid(entries) {
        EntriesShrink(entries, i + 1);
      }
      valid := EntryIsValid(entries[i]);
      if !valid {
        return;
      }
      var clash := ClashesEarlier(entries[..i], entries[i]);
      if clash {
        return false;
      }
    }
    assert entries[..s.count] == entries;
    return true;
  }

  // Agreement of the two tests.

  predicate FitsBuffers(commands: seq<VoiceCommand>) {
    |commands| <= MAX_VOICE_ACTIONS
    && forall i | 0 <= i < |commands| ::
      |commands[i].phrase| < PHRASE_BUFFER && |commands[i].actionId| < ID_BUFFER
      && NUL !in commands[i].phrase && NUL !in commands[i].actionId
  }

  function EncodeCommand(c: VoiceCommand): (b: BufferCommand)
    requires |c.phrase| < PHRASE_BUFFER && |c.actionId| < ID_BUFFER
    ensures FitsLayout(b)
  {
    BufferCommand(Pad(c.phrase, PHRASE_BUFFER), Pad(c.actionId, ID_BUFFER))
  }

  /** The snapshot that a fetched table is copied into. */
  function Encode(revision: nat, commands: seq<VoiceCommand>): (s: BufferSnapshot)
    requires FitsBuffers(commands)
    ensures SnapshotLayout(s)
  {
    BufferSnapshot(VOICE_CONFIG_SCHEMA, |commands|, revision,
                   seq(MAX_VOICE_ACTIONS, i requires 0 <= i < MAX_VOICE_ACTIONS =>
                     if i < |commands| then EncodeCommand(commands[i])
                     else BufferCommand(Pad("", PHRASE_BUFFER), Pad("", ID_BUFFER))))
  }

  /** Copying a table into the buffers and reading the buffers back gives the table, terminated. */
  lemma {:induction false} EncodeRoundTrip(revision: nat, commands: seq<VoiceCommand>)
    requires FitsBuffers(commands)
    ensures var entries := Encode(revision, commands).commands[..|commands|];
            HeldAll(entries) == commands && forall i | 0 <= i < |entries| :: Terminated(entries[i])
  {
    var entries := Encode(revision, commands).commands[..|commands|];
    forall i | 0 <= i < |commands|
      ensures Held(entries[i]) == commands[i] && Terminated(entries[i])
    {
      PaddedString(commands[i].phrase, PHRASE_BUFFER);
      PaddedString(commands[i].actionId, ID_BUFFER);
    }
  }

  /** The daemon accepts a table (every id parses, then the set-based test) exactly when the firmware
      accepts its encoding. */
  method ValidatorsAgree(revision: nat, commands: seq<VoiceCommand>) returns (daemon: bool, firmware: bool)
    requires FitsBuffers(commands) && revision != 0
    ensures daemon == firmware
    ensures daemon <==> IdsValid(commands) && CommandsValid(commands)
  {
    var idsParse := forall i | 0 <= i < |commands| :: IsActionId(commands[i].actionId);
    var table := ValidateVoiceCommands(commands);
    daemon := idsParse && table;
    firmware := ConfigIsValid(Encode(revision, commands));
    EncodeRoundTrip(revision, commands);
  }
}

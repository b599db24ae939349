/** Request fields, phrase tables and their limits, as the daemon checks them.
    A string stands for the bytes of a UTF-8 string, one `char` a byte. */
module Domain {
  import opened Common

  const REQUEST_LIFETIME_MS := 5000
  const MAX_FUTURE_SKEW_MS := 5000
  const MAX_REMEMBERED_IDS := 128
  const VOICE_CONFIG_SCHEMA := 1
  const VOICE_CONFIG_LIMIT := 3072
  const MAX_VOICE_ACTIONS := 12
  const MAX_VOICE_PHRASE_BYTES := 63
  const MAX_ACTION_ID_BYTES := 64
  const U64_LIMIT := 0x1_0000_0000_0000_0000
  const RESERVED := ["jarvis", "wake", "play", "pause", "next", "back", "mute", "unmute", "update"]

  type U64 = n: nat | n < U64_LIMIT

  predicate IsLower(c: char) { 'a' <= c <= 'z' }

  predicate IsLetter(c: char) { IsLower(c) || 'A' <= c <= 'Z' }

  predicate IsDigit(c: char) { '0' <= c <= '9' }

  function LowerChar(c: char): (lower: char)
    ensures IsLetter(c) ==> IsLower(lower)
  {
    if 'A' <= c <= 'Z' then 'a' + (c - 'A') else c
  }

  function Lowercase(s: string): (lower: string) {
    seq(|s|, i requires 0 <= i < |s| => LowerChar(s[i]))
  }

  predicate IsActionId(value: string) {
    1 <= |value| <= MAX_ACTION_ID_BYTES
    && IsLower(value[0])
    && forall i | 0 <= i < |value| :: IsLower(value[i]) || IsDigit(value[i]) || value[i] == '_'
  }

  type ActionId = s: string | IsActionId(s) witness "a"

  datatype VoiceCommand = VoiceCommand(phrase: string, actionId: string)

  /** A command whose id has been parsed, as every command the daemon holds is. */
  type ParsedCommand = c: VoiceCommand | IsActionId(c.actionId) witness VoiceCommand("", "a")

  predicate IdsValid(commands: seq<VoiceCommand>) {
    forall i | 0 <= i < |commands| :: IsActionId(commands[i].actionId)
  }

  /** What a phrase must be: 2 to 63 ASCII letters and single inner spaces, and no built-in word. */
  predicate IsPhrase(p: string) {
    2 <= |p| <= MAX_VOICE_PHRASE_BYTES
    && (forall i | 0 <= i < |p| :: IsLetter(p[i]) || p[i] == ' ')
    && p[0] != ' ' && p[|p| - 1] != ' '
    && (forall i | 0 < i < |p| :: p[i] == ' ' ==> p[i - 1] != ' ')
    && Lowercase(p) !in RESERVED
  }

  predicate Clash(left: VoiceCommand, right: VoiceCommand) {
    Lowercase(left.phrase) == Lowercase(right.phrase) || left.actionId == right.actionId
  }

  /** A table without clashes: phrases pairwise distinct up to letter case, action ids pairwise distinct. */
  predicate Distinct(commands: seq<VoiceCommand>) {
    forall i, j | 0 <= i < j < |commands| :: !Clash(commands[i], commands[j])
  }

  predicate DraftsValid(commands: seq<VoiceCommand>) {
    (forall i | 0 <= i < |commands| :: IsPhrase(commands[i].phrase)) && Distinct(commands)
  }

  predicate CommandsValid(commands: seq<VoiceCommand>) {
    |commands| <= MAX_VOICE_ACTIONS && DraftsValid(commands)
  }

  // The daemon's own test: library calls over the string, and two hash sets.

  predicate IsWhitespace(c: char) {
    c == ' ' || '\t' <= c <= '\r'
  }

  function TrimStart(s: string): string {
    if s != [] && IsWhitespace(s[0]) then TrimStart(s[1..]) else s
  }

  function TrimEnd(s: string): string {
    if s != [] && IsWhitespace(s[|s| - 1]) then TrimEnd(s[..|s| - 1]) else s
  }

  function Trim(s: string): string {
    TrimEnd(TrimStart(s))
  }

  lemma {:induction false} TrimsShrink(s: string)
    ensures |TrimStart(s)| <= |s| && (TrimStart(s) == s || |TrimStart(s)| < |s|)
    ensures |TrimEnd(s)| <= |s| && (TrimEnd(s) == s || |TrimEnd(s)| < |s|)
    decreases |s|
  {
    if s == [] {
    } else {
      TrimsShrink(s[1..]);
      TrimsShrink(s[..|s| - 1]);
    }
  }

  /** A string equals its own trim exactly when it neither starts nor ends with white space. */
  lemma {:induction false} TrimFixed(s: string)
    ensures Trim(s) == s <==> s == [] || (!IsWhitespace(s[0]) && !IsWhitespace(s[|s| - 1]))
  {
    TrimsShrink(s);
    TrimsShrink(TrimStart(s));
    if s != [] {
      if IsWhitespace(s[0]) {
        TrimsShrink(s[1..]);
      } else if IsWhitespace(s[|s| - 1]) {
        TrimsShrink(s[..|s| - 1]);
      }
    }
  }

  predicate PhraseAccepted(phrase: string) {
    2 <= |phrase| <= MAX_VOICE_PHRASE_BYTES
    && Trim(phrase) == phrase
    && (forall i | 0 <= i < |phrase| :: phrase[i] as int < 128)
    && (forall i | 0 <= i < |phrase| :: IsLetter(phrase[i]) || phrase[i] == ' ')
    && !(exists i | 0 <= i < |phrase| - 1 :: phrase[i] == ' ' && phrase[i + 1] == ' ')
    && Lowercase(phrase) !in RESERVED
  }

  lemma {:induction false} PhraseAcceptedMeaning(phrase: string)
    ensures PhraseAccepted(phrase) <==> IsPhrase(phrase)
  {
    TrimFixed(phrase);
    if PhraseAccepted(phrase) {
      forall i | 0 < i < |phrase|
        ensures phrase[i] == ' ' ==> phrase[i - 1] != ' '
      {
        var before := i - 1;
        assert !(phrase[before] == ' ' && phrase[before + 1] == ' ');
      }
    }
  }

  /** The loop over the drafts, filling a set of lower-case phrases and a set of action ids. */
  method ValidateVoiceCommandDrafts(commands: seq<VoiceCommand>) returns (accepted: bool)
    ensures accepted <==> DraftsValid(commands)
  {
    var phrases: set<string> := {};
    var actionIds: set<string> := {};
    for n := 0 to |commands|
      invariant phrases == set k | 0 <= k < n :: Lowercase(commands[k].phrase)
      invariant actionIds == set k | 0 <= k < n :: commands[k].actionId
      invariant DraftsValid(commands[..n])
    {
      var command := commands[n];
      PhraseAcceptedMeaning(command.phrase);
      if !PhraseAccepted(command.phrase) {
        return false;
      }
      var normalized := Lowercase(command.phrase);
      if normalized in phrases || command.actionId in actionIds {
        return false;
      }
      phrases := phrases + {normalized};
      actionIds := actionIds + {command.actionId};
    }
    assert commands[..|commands|] == commands;
    return true;
  }

  method ValidateVoiceCommands(commands: seq<VoiceCommand>) returns (accepted: bool)
    ensures accepted <==> CommandsValid(commands)
  {
    if |commands| > MAX_VOICE_ACTIONS {
      return false;
    }
    accepted := ValidateVoiceCommandDrafts(commands);
  }

  datatype TimeError = InvalidTime | Expired | ClockSkew

  function ValidateTime(issued: U64, expires: U64, now: U64): Result<(), TimeError> {
    if issued + REQUEST_LIFETIME_MS >= U64_LIMIT then Err(InvalidTime)
    else if expires != issued + REQUEST_LIFETIME_MS then Err(InvalidTime)
    else if now >= expires then Err(Expired)
    else if issued > now && issued - now > MAX_FUTURE_SKEW_MS then Err(ClockSkew)
    else Ok(())
  }

  /** A request is in time exactly for readings in the 10000 ms around its issue, and exactly when it is refused
      for what: a wrong lifetime (or one that leaves the range) before an expiry, an expiry before a skew. */
  lemma {:induction false} InTimeExactly(issued: U64, expires: U64, now: U64)
    ensures ValidateTime(issued, expires, now).Ok?
            <==> expires == issued + 5000 < U64_LIMIT && issued - 5000 <= now < issued + 5000
    ensures ValidateTime(issued, expires, now) == Err(InvalidTime) <==> expires != issued + 5000
    ensures ValidateTime(issued, expires, now) == Err(Expired) <==> expires == issued + 5000 <= now
    ensures ValidateTime(issued, expires, now) == Err(ClockSkew) <==> expires == issued + 5000 && now < issued - 5000
  {
  }

  datatype MediaCommand = Play | Pause | Next | Previous | Mute | Unmute
}

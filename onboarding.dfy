/** Onboarding (src/onboarding.rs): each user of each channel first gives the assistant an
    identity (IDENTITY.md), then describes themselves (USER.md), both kept in the user's own
    directory. Which of the two files exist, and what the identity file holds, are inputs
    here: the file system is not part of this model. */
module Onboarding {
  import opened Wrappers
  import opened Strings
  import Channels

  datatype Phase = Identity | User | Complete

  /** The per-user directory, relative to the configuration directory: "users/{channel}_{user_id}". */
  function UserDirName(channel: string, userId: string): string {
    channel + "_" + userId
  }

  function UserDir(channel: string, userId: string): (p: seq<string>)
    ensures p == ["users", UserDirName(channel, userId)]
  {
    ["users", UserDirName(channel, userId)]
  }

  function IdentityPath(channel: string, userId: string): seq<string> {
    UserDir(channel, userId) + ["IDENTITY.md"]
  }

  function UserPath(channel: string, userId: string): seq<string> {
    UserDir(channel, userId) + ["USER.md"]
  }

  /** Two users get the same directory only if they are the same user of the same channel,
      as long as channel names have no underscore (the three channels do not). */
  lemma UserDirInjective(ch1: string, u1: string, ch2: string, u2: string)
    requires '_' !in ch1 && '_' !in ch2
    requires UserDir(ch1, u1) == UserDir(ch2, u2)
    ensures ch1 == ch2 && u1 == u2
  {
    var d := UserDirName(ch1, u1);
    assert d == ch2 + "_" + u2;
    assert d[..|ch1|] == ch1 && d[..|ch2|] == ch2;
    FirstUnderscore(d, |ch1|);
    FirstUnderscore(d, |ch2|);
    assert d[|ch1| + 1..] == u1 && d[|ch2| + 1..] == u2;
  }

  /** Helper: `find` returns the first occurrence, and there is only one first occurrence. */
  lemma FirstUnderscore(s: string, k: nat)
    requires k < |s| && s[k] == '_' && '_' !in s[..k]
    ensures IndexOfChar(s, '_') == Some(k)
  {
    var r := IndexOfChar(s, '_');
    assert r.Some?;
    forall i | 0 <= i < k
      ensures s[i] != '_'
    {
      assert s[..k][i] == s[i];
    }
    forall i | 0 <= i < r.value
      ensures s[i] != '_'
    {
      assert s[..r.value][i] == s[i];
    }
  }

  /** With an underscore in a channel name, two different users can share a directory. */
  lemma UnderscoreChannelsCollide()
    ensures UserDir("a_b", "c") == UserDir("a", "b_c")
  {
    assert UserDirName("a_b", "c") == "a_b_c";
    assert UserDirName("a", "b_c") == "a_b_c";
  }

  /** `current_phase_for_user`: the identity comes first, whatever the state of USER.md. */
  function CurrentPhase(identityExists: bool, userExists: bool): (p: Phase)
    ensures p == Identity <==> !identityExists
    ensures p == User <==> identityExists && !userExists
    ensures p == Complete <==> identityExists && userExists
  {
    if !identityExists then Identity
    else if !userExists then User
    else Complete
  }

  /** `is_complete_for_user`. */
  function IsComplete(identityExists: bool, userExists: bool): (b: bool)
    ensures b <==> CurrentPhase(identityExists, userExists) == Complete
  {
    CurrentPhase(identityExists, userExists) == Complete
  }

  /** Deleting a user's IDENTITY.md restarts onboarding from the identity phase. */
  lemma IdentityGatesOnboarding(userExists: bool)
    ensures CurrentPhase(false, userExists) == Identity
    ensures !IsComplete(false, userExists)
  {
  }

  /** The onboarding instruction for a phase: the identity prompt names where to write
      IDENTITY.md; the profile prompt carries the identity and names where to write USER.md.
      A completed user gets none. */
  datatype SystemPrompt =
    | IdentityPrompt(identityPath: seq<string>)
    | ProfilePrompt(identity: string, userPath: seq<string>)
    | NoPrompt

  /** The text of a prompt: the identity wording and the profile wording are not part of
      this model, only what each embeds; `NoPrompt` is the empty string. */
  function IsEmptyPrompt(p: SystemPrompt): bool {
    p.NoPrompt?
  }

  /** `system_prompt_for_user`: the prompt of the current phase; an unreadable identity file
      counts as empty. */
  function SystemPromptFor(channel: string, userId: string, identityExists: bool, userExists: bool,
                           identity: Option<string>): (p: SystemPrompt)
    ensures IsEmptyPrompt(p) <==> IsComplete(identityExists, userExists)
    ensures CurrentPhase(identityExists, userExists) == Identity ==> p == IdentityPrompt(IdentityPath(channel, userId))
    ensures CurrentPhase(identityExists, userExists) == User ==>
      p == ProfilePrompt(identity.GetOr(""), UserPath(channel, userId))
  {
    match CurrentPhase(identityExists, userExists)
    case Identity => IdentityPrompt(IdentityPath(channel, userId))
    case User => ProfilePrompt(identity.GetOr(""), UserPath(channel, userId))
    case Complete => NoPrompt
  }

  const NAME_PREFIX: string := "- Name:"
  const DEFAULT_ASSISTANT_NAME: string := "Cica"

  /** The index of the first line that starts with `prefix`. */
  function FirstLineWith(lines: seq<string>, prefix: string): (r: Option<nat>)
    ensures r.Some? ==> (r.value < |lines| && StartsWith(lines[r.value], prefix)
      && forall j :: 0 <= j < r.value ==> !StartsWith(lines[j], prefix))
    ensures r.None? ==> forall j :: 0 <= j < |lines| ==> !StartsWith(lines[j], prefix)
    decreases |lines|
  {
    if lines == [] then None
    else if StartsWith(lines[0], prefix) then Some(0)
    else
      match FirstLineWith(lines[1..], prefix)
      case Some(i) => Some(i + 1)
      case None => None
  }

  /** The assistant's name: what follows "- Name:" on the first identity line starting
      with it, trimmed; "Cica" without an identity or without such a line. */
  function AssistantName(identity: Option<string>): (name: string)
    ensures identity.None? ==> name == DEFAULT_ASSISTANT_NAME
    ensures identity.Some? && FirstLineWith(Lines(identity.value), NAME_PREFIX).None? ==> name == DEFAULT_ASSISTANT_NAME
    ensures identity.Some? && FirstLineWith(Lines(identity.value), NAME_PREFIX).Some? ==>
      var line := Lines(identity.value)[FirstLineWith(Lines(identity.value), NAME_PREFIX).value];
      name == Trim(TrimStartMatches(line, NAME_PREFIX)) && (name == [] || !IsSpace(name[0]))
  {
    match identity
    case None => DEFAULT_ASSISTANT_NAME
    case Some(content) =>
      var lines := Lines(content);
      match FirstLineWith(lines, NAME_PREFIX)
      case None => DEFAULT_ASSISTANT_NAME
      case Some(i) => Trim(TrimStartMatches(lines[i], NAME_PREFIX))
  }

  const IDENTITY_HEADER: string := "# IDENTITY.md - Agent Identity"

  function NameLine(name: string): string {
    NAME_PREFIX + (" " + name)
  }

  /** The rest of IDENTITY.md after the name line. */
  function IdentityTail(vibe: string, animal: string): string {
    "- Vibe: " + vibe + "\n- Spirit Animal: " + animal + "\n"
  }

  /** IDENTITY.md in the exact format the identity prompt tells the assistant to write. */
  function IdentityFile(name: string, vibe: string, animal: string): string {
    IDENTITY_HEADER + ("\n" + ("\n" + (NameLine(name) + ("\n" + IdentityTail(vibe, animal)))))
  }

  /** Helper: `lines` peels off a first line that has no newline. */
  lemma LinesCons(a: string, b: string)
    requires '\n' !in a
    ensures Lines(a + ("\n" + b)) == [StripCr(a)] + Lines(b)
  {
    var s := a + ("\n" + b);
    assert s[|a|] == '\n';
    assert s[..|a|] == a;
    assert s[|a| + 1..] == b;
  }

  /** Helper: stripping "- Name:" from the name line leaves the blank and the name. */
  lemma StripNamePrefix(name: string)
    ensures StartsWith(NameLine(name), NAME_PREFIX)
    ensures TrimStartMatches(NameLine(name), NAME_PREFIX) == " " + name
  {
    var line := NameLine(name);
    assert line[..|NAME_PREFIX|] == NAME_PREFIX;
    assert line[|NAME_PREFIX|..] == " " + name;
    assert (" " + name)[0] != NAME_PREFIX[0];
  }

  /** Helper: one leading blank goes when a trimmed name is trimmed again. */
  lemma TrimLeadingBlank(name: string)
    requires Trim(name) == name
    ensures Trim(" " + name) == name
  {
    assert (" " + name)[1..] == name;
    assert TrimStart(" " + name) == TrimStart(name);
  }

  /** Helper: the name line holds no line break and does not end in a carriage return. */
  lemma NameLineOneLine(name: string)
    requires '\n' !in name && (name == [] || !IsSpace(name[|name| - 1]))
    ensures '\n' !in NameLine(name) && StripCr(NameLine(name)) == NameLine(name)
  {
    var line := NameLine(name);
    assert '\n' !in NAME_PREFIX;
    assert line[|line| - 1] == (if name == [] then ' ' else name[|name| - 1]);
  }

  /** Helper: the header line is a line of its own that does not give the name. */
  lemma HeaderLine()
    ensures '\n' !in IDENTITY_HEADER && StripCr(IDENTITY_HEADER) == IDENTITY_HEADER
    ensures !StartsWith(IDENTITY_HEADER, NAME_PREFIX)
  {
    assert IDENTITY_HEADER[0] != NAME_PREFIX[0];
  }

  /** Helper: the lines of IDENTITY.md start with the header, a blank line and the name line. */
  lemma IdentityFileLines(name: string, vibe: string, animal: string)
    requires '\n' !in name && (name == [] || !IsSpace(name[|name| - 1]))
    ensures Lines(IdentityFile(name, vibe, animal))
      == [IDENTITY_HEADER] + ([""] + ([NameLine(name)] + Lines(IdentityTail(vibe, animal))))
  {
    var l2 := NameLine(name);
    var rest := IdentityTail(vibe, animal);
    HeaderLine();
    NameLineOneLine(name);
    LinesCons(IDENTITY_HEADER, "\n" + (l2 + ("\n" + rest)));
    LinesCons("", l2 + ("\n" + rest));
    LinesCons(l2, rest);
  }

  /** Helper: the name line is the first to start with "- Name:". */
  lemma NameLineIsFirst(l2: string, tail: seq<string>)
    requires StartsWith(l2, NAME_PREFIX)
    ensures FirstLineWith([IDENTITY_HEADER] + ([""] + ([l2] + tail)), NAME_PREFIX) == Some(2)
  {
    var lines := [IDENTITY_HEADER] + ([""] + ([l2] + tail));
    HeaderLine();
    assert lines[1..] == [""] + ([l2] + tail);
    assert lines[1..][1..] == [l2] + tail;
    assert FirstLineWith(lines[1..][1..], NAME_PREFIX) == Some(0);
    assert FirstLineWith(lines[1..], NAME_PREFIX) == Some(1);
  }

  /** Writing the identity in the prescribed format and reading the name back gives the
      name that was written. */
  lemma IdentityNameRoundTrip(name: string, vibe: string, animal: string)
    requires Trim(name) == name && '\n' !in name
    ensures AssistantName(Some(IdentityFile(name, vibe, animal))) == name
  {
    var tail := Lines(IdentityTail(vibe, animal));
    var lines := [IDENTITY_HEADER] + ([""] + ([NameLine(name)] + tail));
    assert name == [] || !IsSpace(name[|name| - 1]);
    IdentityFileLines(name, vibe, animal);
    StripNamePrefix(name);
    NameLineIsFirst(NameLine(name), tail);
    assert lines[2] == NameLine(name);
    TrimLeadingBlank(name);
  }

  const SIGNAL_FORMATTING: seq<string> := [
    "Do NOT use any text formatting (no markdown, no asterisks, no underscores).",
    "Signal requires special APIs for formatting that aren't available here.",
    "Just use plain text."
  ]

  const TELEGRAM_FORMATTING: seq<string> := [
    "Telegram supports standard markdown:",
    "- **bold** or __bold__",
    "- *italic* or _italic_",
    "- ~strikethrough~",
    "- `monospace` and ```code blocks```",
    "- [links](url)"
  ]

  const PLAIN_FORMATTING: seq<string> := ["Use plain text formatting."]

  /** The formatting guidance for a channel display name, matched without regard to ASCII
      case: Signal gets plain text only, Telegram gets markdown, any other channel plain text. */
  function FormattingLines(channelName: string): (r: seq<string>)
    ensures r == SIGNAL_FORMATTING <==> ToLower(channelName) == "signal"
    ensures r == TELEGRAM_FORMATTING <==> ToLower(channelName) == "telegram"
    ensures r == PLAIN_FORMATTING <==> ToLower(channelName) != "signal" && ToLower(channelName) != "telegram"
  {
    var lower := ToLower(channelName);
    if lower == "signal" then SIGNAL_FORMATTING
    else if lower == "telegram" then TELEGRAM_FORMATTING
    else PLAIN_FORMATTING
  }

  /** The channel section of the context prompt: only when the channel is known, with the
      formatting guidance after its heading. */
  function ChannelGuidance(channelDisplay: Option<string>): (r: seq<string>)
    ensures channelDisplay.None? ==> r == []
    ensures channelDisplay.Some? ==>
      |r| >= 5 && r[..5] == ["## Messaging Channel",
                 "You are currently communicating via " + channelDisplay.value + ".",
                 "IMPORTANT: Never send streaming/partial replies to external messaging surfaces.",
                 "",
                 "### Text Formatting"]
      && r[5..] == FormattingLines(channelDisplay.value) + [""]
  {
    match channelDisplay
    case None => []
    case Some(c) =>
      ["## Messaging Channel",
       "You are currently communicating via " + c + ".",
       "IMPORTANT: Never send streaming/partial replies to external messaging surfaces.",
       "",
       "### Text Formatting"]
      + FormattingLines(c) + [""]
  }

  /** What follows the assistant's name in the first line of the context prompt. */
  const INTRO_TAIL := ", a personal AI assistant. You are chatting with your user via a messaging app"

  /** The first line of the context prompt: it introduces the assistant by name, and a
      known channel is named in parentheses just before the closing full stop. */
  function IntroLine(assistantName: string, channelDisplay: Option<string>): (r: string)
    ensures StartsWith(r, "You are " + assistantName + INTRO_TAIL) && r[|r| - 1] == '.'
    ensures channelDisplay.None? ==> r == "You are " + assistantName + INTRO_TAIL + "."
    ensures channelDisplay.Some? ==>
              r == "You are " + assistantName + INTRO_TAIL + " (via " + channelDisplay.value + ")."
  {
    var via := match channelDisplay
      case Some(c) => " (via " + c + ")"
      case None => "";
    "You are " + assistantName + INTRO_TAIL + via + "."
  }

  /** Naming the channel only inserts " (via <channel>)" before the full stop of the
      line without one. */
  lemma IntroLineWithChannel(assistantName: string, channel: string)
    ensures var plain := IntroLine(assistantName, None);
            IntroLine(assistantName, Some(channel)) == plain[..|plain| - 1] + " (via " + channel + ")."
  {
    var head := "You are " + assistantName + INTRO_TAIL;
    assert IntroLine(assistantName, None)[..|head|] == head;
  }

  /** The display names the channel table hands out get the guidance meant for them:
      markdown for Telegram, plain text only for Signal. */
  lemma DisplayNamesSelectFormatting()
    ensures FormattingLines(Channels.GetChannelInfo("telegram").value.displayName) == TELEGRAM_FORMATTING
    ensures FormattingLines(Channels.GetChannelInfo("signal").value.displayName) == SIGNAL_FORMATTING
  {
    assert ToLower("Telegram") == "telegram";
    assert ToLower("Signal") == "signal";
  }

  /** A channel spelled in any case gets the same guidance. */
  lemma FormattingIgnoresCase(a: string, b: string)
    requires ToLower(a) == ToLower(b)
    ensures FormattingLines(a) == FormattingLines(b)
  {
  }
}

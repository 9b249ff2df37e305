/** The decisions the Discord bot makes around its I/O: the channel
    allow-list, the per-user and per-guild cooldowns, the per-user chat
    history buffer, the message list sent to the language model, the image
    prompt check, command dispatch and prompt extraction, and the splitting
    of long replies. Time is the parameter `now`; the model's answer and the
    admin check are parameters too. */
module DiscordBot {
  import opened Wrappers
  import opened Sequences
  import opened Text
  import ImageGeneration

  const UserCooldownMs: int := 3000
  const GuildCooldownMs: int := 1000
  /** Entries of a user's history buffer, and entries sent to the model. */
  const HistoryCap: nat := 6
  /** The guild key of a direct message. */
  const DirectMessageGuild: string := "dm"

  // ---------------------------------------------------------------- channels

  /** `isChannelAllowed`: no list or an empty list allows every channel. */
  predicate IsChannelAllowed(channel: string, allowed: Option<seq<string>>) {
    allowed.None? || allowed.value == [] || channel in allowed.value
  }

  /** Adding the first channel to an empty list turns "everywhere" into
      "only there"; adding one to a non-empty list only widens it. */
  lemma AllowListGrowth(channels: seq<string>, added: string, channel: string)
    ensures channels == [] ==>
              (IsChannelAllowed(channel, Some(channels + [added])) <==> channel == added)
    ensures channels != [] && IsChannelAllowed(channel, Some(channels)) ==>
              IsChannelAllowed(channel, Some(channels + [added]))
  {
    if channels == [] {
      assert channels + [added] == [added];
    }
  }

  // --------------------------------------------------------------- cooldowns

  datatype CooldownKind = UserCooldown | GuildCooldown
  datatype Cooldown = Allowed | Denied(kind: CooldownKind, waitTime: int)

  /** A stored timestamp as `Map.get` returns it. */
  function Stamp(m: map<string, int>, key: string): Option<int> {
    if key in m then Some(m[key]) else None
  }

  /** A timestamp that is truthy in JavaScript: present and not 0. */
  predicate Recent(stamp: Option<int>, now: int, window: int) {
    stamp.Some? && stamp.value != 0 && now - stamp.value < window
  }

  /** `checkCooldown` on the two looked-up timestamps. */
  function CooldownDecision(userStamp: Option<int>, guildStamp: Option<int>, now: int): Cooldown {
    if Recent(userStamp, now, UserCooldownMs) then
      Denied(UserCooldown, UserCooldownMs - (now - userStamp.value))
    else if Recent(guildStamp, now, GuildCooldownMs) then
      Denied(GuildCooldown, GuildCooldownMs - (now - guildStamp.value))
    else Allowed
  }

  /** The user check takes precedence; a denial always asks for a positive
      wait, at most the cooldown itself when the clock has not gone back. */
  lemma CooldownCases(userStamp: Option<int>, guildStamp: Option<int>, now: int)
    ensures var c := CooldownDecision(userStamp, guildStamp, now);
            && (c.Denied? && c.kind == UserCooldown <==> Recent(userStamp, now, UserCooldownMs))
            && (c.Denied? && c.kind == GuildCooldown <==>
                  !Recent(userStamp, now, UserCooldownMs) && Recent(guildStamp, now, GuildCooldownMs))
            && (c.Denied? ==> 0 < c.waitTime)
            && (c.Denied? && c.kind == UserCooldown && userStamp.value <= now ==>
                  c.waitTime <= UserCooldownMs)
            && (c.Denied? && c.kind == GuildCooldown && guildStamp.value <= now ==>
                  c.waitTime <= GuildCooldownMs)
  {
  }

  /** `Math.ceil(waitTime / 1000)` for a positive wait. */
  function WaitSeconds(waitTime: int): (seconds: nat)
    requires waitTime > 0
    ensures (seconds - 1) * 1000 < waitTime <= seconds * 1000
  {
    (waitTime + 999) / 1000
  }

  /** `message.guild?.id || 'dm'`. */
  function GuildKey(guild: Option<string>): string {
    if Present(guild) then guild.value else DirectMessageGuild
  }

  // ----------------------------------------------------- history and prompts

  datatype Role = SystemRole | UserRole | AssistantRole
  datatype ChatMessage = ChatMessage(role: Role, content: string)

  /** The roles of a buffer: user, assistant, user, assistant, ... */
  predicate Alternates(h: seq<ChatMessage>) {
    forall i :: 0 <= i < |h| ==> h[i].role == (if i % 2 == 0 then UserRole else AssistantRole)
  }

  /** What a user's history buffer always is: whole exchanges, at most six
      entries, user and assistant taking turns. */
  predicate Buffered(h: seq<ChatMessage>) {
    |h| <= HistoryCap && |h| % 2 == 0 && Alternates(h)
  }

  /** `history.push(user, assistant)` followed by `splice(0, 2)` when the
      buffer grew past six entries. */
  function Recorded(h: seq<ChatMessage>, prompt: string, reply: string): seq<ChatMessage> {
    var pushed := h + [ChatMessage(UserRole, prompt), ChatMessage(AssistantRole, reply)];
    if |pushed| > HistoryCap then pushed[2..] else pushed
  }

  /** The buffer stays well formed, holds the most recent exchanges (the
      oldest pair is the one dropped) and ends with the new exchange. */
  lemma RecordedStaysBuffered(h: seq<ChatMessage>, prompt: string, reply: string)
    requires Buffered(h)
    ensures var r := Recorded(h, prompt, reply);
            && Buffered(r)
            && r == LastN(h + [ChatMessage(UserRole, prompt), ChatMessage(AssistantRole, reply)], HistoryCap)
            && r[|r| - 2..] == [ChatMessage(UserRole, prompt), ChatMessage(AssistantRole, reply)]
  {
    var pushed := h + [ChatMessage(UserRole, prompt), ChatMessage(AssistantRole, reply)];
    var r := Recorded(h, prompt, reply);
    if |pushed| > HistoryCap {
      assert r == pushed[2..];
      forall i | 0 <= i < |r| ensures r[i].role == (if i % 2 == 0 then UserRole else AssistantRole) {
        assert r[i] == pushed[i + 2];
      }
    }
  }

  /** The message list of `callHuggingFaceAPI`: the system instructions, the
      last six history entries, then the prompt. */
  function ModelMessages(instructions: string, history: seq<ChatMessage>, prompt: string): seq<ChatMessage> {
    [ChatMessage(SystemRole, instructions)] + LastN(history, HistoryCap) + [ChatMessage(UserRole, prompt)]
  }

  /** With a well-formed buffer, the model sees the system message first,
      then the whole buffer, then the prompt, and after the system message
      the roles alternate starting and ending with the user. */
  lemma ModelMessagesShape(instructions: string, history: seq<ChatMessage>, prompt: string)
    requires Buffered(history)
    ensures var m := ModelMessages(instructions, history, prompt);
            && |m| == |history| + 2 && |m| <= HistoryCap + 2
            && m[0] == ChatMessage(SystemRole, instructions)
            && m[1..|m| - 1] == history
            && m[|m| - 1] == ChatMessage(UserRole, prompt)
            && (forall i :: 1 <= i < |m| ==> m[i].role == (if i % 2 == 1 then UserRole else AssistantRole))
  {
    var m := ModelMessages(instructions, history, prompt);
    assert LastN(history, HistoryCap) == history;
    forall i | 1 <= i < |m| ensures m[i].role == (if i % 2 == 1 then UserRole else AssistantRole) {
      if i < |m| - 1 {
        assert m[i] == history[i - 1];
      }
    }
  }

  // ------------------------------------------------------ image prompt check

  const BlockedTerms: seq<string> := ["nude", "explicit", "violence", "porn", "sexual", "gore"]
  const EmptyPromptReason := "Prompt cannot be empty."
  const LongPromptReason := "Prompt is too long (max 1000 characters)."
  const BlockedReason := "Prompt contains blocked content."
  const MaxImagePrompt: nat := 1000

  /** The bot's `validateImagePrompt`: white space only, then length, then the
      blocked terms, in that order. */
  function ValidateImagePrompt(prompt: string): (v: ImageGeneration.Validation)
    ensures v.Valid? <==>
              && Trim(prompt) != ""
              && |prompt| <= MaxImagePrompt
              && forall t :: t in BlockedTerms ==> !Contains(ToLower(prompt), t)
    ensures Trim(prompt) == "" ==> v == ImageGeneration.Invalid(EmptyPromptReason)
    ensures Trim(prompt) != "" && |prompt| > MaxImagePrompt ==> v == ImageGeneration.Invalid(LongPromptReason)
    ensures Trim(prompt) != "" && |prompt| <= MaxImagePrompt && ContainsAny(ToLower(prompt), BlockedTerms) ==>
              v == ImageGeneration.Invalid(BlockedReason)
  {
    if Trim(prompt) == "" then ImageGeneration.Invalid(EmptyPromptReason)
    else if |prompt| > MaxImagePrompt then ImageGeneration.Invalid(LongPromptReason)
    else if ContainsAny(ToLower(prompt), BlockedTerms) then ImageGeneration.Invalid(BlockedReason)
    else ImageGeneration.Valid
  }

  /** A prompt the dashboard's validator accepts passes the bot's check too,
      unless it is blank or says "explicit": "sexual" is caught through
      "sex", and the other blocked terms are banned words there. */
  lemma DashboardValidImpliesBotValid(prompt: string)
    requires ImageGeneration.ValidatePrompt(prompt).Valid?
    requires Trim(prompt) != "" && !Contains(ToLower(prompt), "explicit")
    ensures ValidateImagePrompt(prompt).Valid?
  {
    var lower := ToLower(prompt);
    BlockedTermsAgainstBanned();
    BlockedWithinBanned(lower, ImageGeneration.BannedWords);
  }

  /** Where the bot's blocked terms sit among the dashboard's banned words. */
  lemma BlockedTermsAgainstBanned()
    ensures var banned := ImageGeneration.BannedWords;
            && |BlockedTerms| == 6 && |banned| == 11
            && BlockedTerms[0] == banned[0] && BlockedTerms[1] == "explicit"
            && BlockedTerms[2] == banned[4] && BlockedTerms[3] == banned[2]
            && BlockedTerms[4] == banned[3] + "ual" && BlockedTerms[5] == banned[5]
  {
  }

  lemma BlockedWithinBanned(lower: string, banned: seq<string>)
    requires |BlockedTerms| == 6 && |banned| == 11
    requires BlockedTerms[0] == banned[0] && BlockedTerms[1] == "explicit"
    requires BlockedTerms[2] == banned[4] && BlockedTerms[3] == banned[2]
    requires BlockedTerms[4] == banned[3] + "ual" && BlockedTerms[5] == banned[5]
    requires forall i :: 0 <= i < |banned| ==> !Contains(lower, banned[i])
    requires !Contains(lower, "explicit")
    ensures !ContainsAny(lower, BlockedTerms)
  {
    assert !Contains(lower, BlockedTerms[4]) by {
      if Contains(lower, BlockedTerms[4]) {
        ContainsShorter(lower, banned[3], "ual");
      }
    }
    NoneContained(lower, BlockedTerms);
  }

  // ------------------------------------------------------------ dispatch

  datatype AdminCommand = AdminHelp | AdminStats | AdminRestart | AdminChannels

  datatype Command =
    | Help
    | Ping
    | ClearChannel
    | Admin(sub: AdminCommand)
    | ImageUsage
    | Image(args: seq<string>)
    | Chat(prompt: string)
    | EmptyPrompt
    | Ignore

  /** `args[1]` of `!admin`: only the exact, case-sensitive names. */
  function AdminSubcommand(words: seq<string>): AdminCommand {
    if |words| < 2 then AdminHelp
    else if words[1] == "stats" then AdminStats
    else if words[1] == "restart" then AdminRestart
    else if words[1] == "channels" then AdminChannels
    else AdminHelp
  }

  predicate IsImageCommand(lower: string) {
    StartsWith(lower, "!image") || StartsWith(lower, "!gen") || StartsWith(lower, "!imagine")
  }

  /** The prompt of a chat message: after `!ai`, after `!ask`, or with the
      first mention of the bot removed, trimmed. */
  function ChatPrompt(content: string, mentionsBot: bool, botId: string): Option<string> {
    if StartsWith(content, "!ai") then Some(Trim(content[3..]))
    else if StartsWith(content, "!ask") then Some(Trim(content[4..]))
    else if mentionsBot then Some(Trim(ReplaceFirst(content, "<@" + botId + ">", "")))
    else None
  }

  /** The chat path's reaction to a message that is no other command. */
  function ChatCommand(content: string, mentionsBot: bool, botId: string): Command {
    match ChatPrompt(content, mentionsBot, botId)
    case None => Ignore
    case Some(prompt) => if prompt == "" then EmptyPrompt else Chat(prompt)
  }

  /** The `messageCreate` handler up to the chat path: a message written by
      any bot, this one included, is dropped before its text is looked at;
      a person's message goes through `Dispatch`. */
  function HandleMessage(authorIsBot: bool, content: string, mentionsBot: bool, botId: string): (c: Command)
    ensures authorIsBot ==> c == Ignore
    ensures !authorIsBot ==> c == Dispatch(content, mentionsBot, botId)
  {
    if authorIsBot then Ignore else Dispatch(content, mentionsBot, botId)
  }

  /** The handler keeps silent exactly for bots' messages and for people's
      messages that are no command, carry no chat prefix and do not mention
      the bot. */
  lemma SilentExactlyWhenUnaddressed(authorIsBot: bool, content: string, mentionsBot: bool, botId: string)
    ensures HandleMessage(authorIsBot, content, mentionsBot, botId) == Ignore <==>
              (authorIsBot ||
               (var lower := ToLower(content);
                && lower != "!help" && lower != "!ping" && lower != "!clear"
                && !StartsWith(lower, "!admin") && !IsImageCommand(lower)
                && !StartsWith(content, "!ai") && !StartsWith(content, "!ask") && !mentionsBot))
  {
  }

  /** The command a person's message selects, up to the chat path. */
  function Dispatch(content: string, mentionsBot: bool, botId: string): Command {
    var lower := ToLower(content);
    if lower == "!help" then Help
    else if lower == "!ping" then Ping
    else if lower == "!clear" then ClearChannel
    else if StartsWith(lower, "!admin") then Admin(AdminSubcommand(Split(content, ' ')))
    else if IsImageCommand(lower) then
      var words := Split(content, ' ');
      if |words| == 1 then ImageUsage else Image(words[1..])
    else ChatCommand(content, mentionsBot, botId)
  }

  /** The three basic commands win over everything else, whatever the case
      of the letters and whether or not the bot is mentioned. */
  lemma BasicCommandsFirst(content: string, mentionsBot: bool, botId: string)
    ensures ToLower(content) == "!help" ==> Dispatch(content, mentionsBot, botId) == Help
    ensures ToLower(content) == "!ping" ==> Dispatch(content, mentionsBot, botId) == Ping
    ensures ToLower(content) == "!clear" ==> Dispatch(content, mentionsBot, botId) == ClearChannel
  {
  }

  /** A lower-cased message whose second character is neither of the
      basic commands' nor of an image command's. */
  predicate NotBasicOrImage(lower: string) {
    |lower| >= 3 && lower[0] == '!' && lower[1] == 'a'
  }

  lemma UnprefixedIsNotBasicOrImage(lower: string)
    requires NotBasicOrImage(lower)
    ensures lower != "!help" && lower != "!ping" && lower != "!clear"
    ensures !IsImageCommand(lower)
  {
    assert "!help"[1] == 'h' && "!ping"[1] == 'p' && "!clear"[1] == 'c';
    assert !StartsWith(lower, "!image") by { assert "!image"[1] == 'i'; }
    assert !StartsWith(lower, "!gen") by { assert "!gen"[1] == 'g'; }
    assert !StartsWith(lower, "!imagine") by { assert "!imagine"[1] == 'i'; }
  }

  /** An `!admin` message without a known subcommand falls back to help. */
  lemma AdminFallsBackToHelp(content: string, mentionsBot: bool, botId: string)
    requires StartsWith(ToLower(content), "!admin")
    requires var words := Split(content, ' ');
             |words| < 2 || words[1] !in ["stats", "restart", "channels"]
    ensures Dispatch(content, mentionsBot, botId) == Admin(AdminHelp)
  {
    var lower := ToLower(content);
    assert lower[..6] == "!admin";
    assert lower[0] == '!' && lower[1] == 'a';
    UnprefixedIsNotBasicOrImage(lower);
  }

  /** An image command with no space in it is refused with the usage text. */
  lemma ImageWithoutArgumentsRefused(content: string, mentionsBot: bool, botId: string)
    requires IsImageCommand(ToLower(content)) && ' ' !in content
    ensures Dispatch(content, mentionsBot, botId) == ImageUsage
  {
    var lower := ToLower(content);
    assert lower[1] == 'i' || lower[1] == 'g';
    assert lower != "!help" && lower != "!ping" && lower != "!clear" by {
      assert "!help"[1] == 'h' && "!ping"[1] == 'p' && "!clear"[1] == 'c';
    }
    assert !StartsWith(lower, "!admin") by { assert "!admin"[1] == 'a'; }
    SplitCountsPieces(content, ' ');
    assert multiset(content)[' '] == 0;
  }

  /** A chat prompt is never empty and is already trimmed. */
  lemma ChatCommandIsTrimmed(content: string, mentionsBot: bool, botId: string)
    ensures var c := ChatCommand(content, mentionsBot, botId);
            c.Chat? ==> c.prompt != "" && Trim(c.prompt) == c.prompt
  {
    if StartsWith(content, "!ai") {
      TrimIdempotent(content[3..]);
    } else if StartsWith(content, "!ask") {
      TrimIdempotent(content[4..]);
    } else {
      TrimIdempotent(ReplaceFirst(content, "<@" + botId + ">", ""));
    }
  }

  /** Whatever reaches the model as a prompt is non-empty and trimmed. */
  lemma ChatPromptIsTrimmed(content: string, mentionsBot: bool, botId: string)
    ensures var d := Dispatch(content, mentionsBot, botId);
            d.Chat? ==> d.prompt != "" && Trim(d.prompt) == d.prompt
  {
    var lower := ToLower(content);
    if lower == "!help" || lower == "!ping" || lower == "!clear" || StartsWith(lower, "!admin") {
    } else if IsImageCommand(lower) {
    } else {
      assert Dispatch(content, mentionsBot, botId) == ChatCommand(content, mentionsBot, botId);
      ChatCommandIsTrimmed(content, mentionsBot, botId);
    }
  }

  /** `!ai <question>` asks exactly the question. */
  lemma AiPrefixRoundTrip(question: string, mentionsBot: bool, botId: string)
    requires question != "" && Trim(question) == question
    ensures Dispatch("!ai " + question, mentionsBot, botId) == Chat(question)
  {
    var content := "!ai " + question;
    var lower := ToLower(content);
    assert content[0] == '!' && content[1] == 'a' && content[2] == 'i';
    assert lower[0] == '!' && lower[1] == 'a' && lower[2] == 'i';
    UnprefixedIsNotBasicOrImage(lower);
    assert !StartsWith(lower, "!admin") by { assert "!admin"[2] == 'd'; }
    assert content[..3] == "!ai";
    assert content[3..] == " " + question;
    TrimSkipsLeading(" ", question);
  }

  /** `!ask <question>` asks exactly the question too. */
  lemma AskPrefixRoundTrip(question: string, mentionsBot: bool, botId: string)
    requires question != "" && Trim(question) == question
    ensures Dispatch("!ask " + question, mentionsBot, botId) == Chat(question)
  {
    var content := "!ask " + question;
    var lower := ToLower(content);
    assert content[0] == '!' && content[1] == 'a' && content[2] == 's' && content[3] == 'k';
    assert lower[0] == '!' && lower[1] == 'a' && lower[2] == 's';
    UnprefixedIsNotBasicOrImage(lower);
    assert !StartsWith(lower, "!admin") by { assert "!admin"[2] == 'd'; }
    assert !StartsWith(content, "!ai") by { assert "!ai"[2] == 'i'; }
    assert content[..4] == "!ask";
    assert content[4..] == " " + question;
    TrimSkipsLeading(" ", question);
  }

  // --------------------------------------------------------- reply splitting

  const ReplyLimit: nat := 2000
  const ChunkLimit: nat := 1997
  /** A period must sit past this index for a chunk to end early. */
  const EarlyCutIndex: int := 1500

  /** `splitAt` of one round of the loop: just after the last period of the
      first 1997 characters when that period is past index 1500, else 1997. */
  function CutPoint(remaining: string): (k: nat)
    ensures EarlyCutIndex + 2 <= k <= ChunkLimit
    ensures k < ChunkLimit ==> k <= |remaining| && remaining[k - 1] == '.'
  {
    var lastPeriod := LastIndexOf(Take(remaining, ChunkLimit), '.');
    if lastPeriod > EarlyCutIndex then lastPeriod + 1 else ChunkLimit
  }

  /** The chunks the loop produces from what remains to be sent. */
  function Chunks(remaining: string): seq<string>
    decreases |remaining|
  {
    if remaining == [] then []
    else
      var k := CutPoint(remaining);
      [Take(remaining, k)] + Chunks(Drop(remaining, k))
  }

  /** The pieces the bot replies with: the whole text up to 2000 characters,
      otherwise the loop's chunks. */
  function ReplyPieces(text: string): seq<string> {
    if |text| <= ReplyLimit then [text] else Chunks(text)
  }

  function Concat(pieces: seq<string>): string {
    if pieces == [] then "" else pieces[0] + Concat(pieces[1..])
  }

  lemma ConcatAppend(a: seq<string>, b: seq<string>)
    ensures Concat(a + b) == Concat(a) + Concat(b)
  {
    if a != [] {
      assert (a + b)[1..] == a[1..] + b;
      ConcatAppend(a[1..], b);
    } else {
      assert a + b == b;
    }
  }

  lemma ConcatCons(piece: string, rest: seq<string>)
    ensures Concat([piece] + rest) == piece + Concat(rest)
  {
    assert ([piece] + rest)[1..] == rest;
  }

  /** One round of the loop: the first chunk, then the chunks of the rest. */
  lemma ChunksStep(remaining: string)
    requires remaining != []
    ensures Chunks(remaining) ==
            [Take(remaining, CutPoint(remaining))] + Chunks(Drop(remaining, CutPoint(remaining)))
  {
  }

  /** Chunking loses nothing: the chunks put together are the text. */
  lemma {:induction false} ChunksConcat(remaining: string)
    ensures Concat(Chunks(remaining)) == remaining
    decreases |remaining|
  {
    if remaining != [] {
      var k := CutPoint(remaining);
      var rest := Drop(remaining, k);
      ChunksConcat(rest);
      ChunksStep(remaining);
      ConcatCons(Take(remaining, k), Chunks(rest));
      TakeDrop(remaining, k);
    }
  }

  /** Every chunk is non-empty and at most 1997 characters. */
  lemma {:induction false} ChunksBounded(remaining: string)
    ensures forall i :: 0 <= i < |Chunks(remaining)| ==> 0 < |Chunks(remaining)[i]| <= ChunkLimit
    decreases |remaining|
  {
    if remaining != [] {
      var k := CutPoint(remaining);
      var rest := Drop(remaining, k);
      ChunksBounded(rest);
      var cs := Chunks(remaining);
      assert cs[1..] == Chunks(rest);
      forall i | 0 <= i < |cs| ensures 0 < |cs[i]| <= ChunkLimit {
        if i > 0 {
          assert cs[i] == Chunks(rest)[i - 1];
        }
      }
    }
  }

  /** A chunk that ends at a period past index 1500. */
  predicate EarlyCut(chunk: string) {
    |chunk| > EarlyCutIndex + 1 && chunk[|chunk| - 1] == '.'
  }

  /** Every chunk but the last is either full or cut early at a period. */
  predicate CutAtPeriods(chunks: seq<string>) {
    forall i :: 0 <= i < |chunks| - 1 && |chunks[i]| < ChunkLimit ==> EarlyCut(chunks[i])
  }

  lemma CutAtPeriodsCons(chunk: string, rest: seq<string>)
    requires CutAtPeriods(rest)
    requires rest != [] && |chunk| < ChunkLimit ==> EarlyCut(chunk)
    ensures CutAtPeriods([chunk] + rest)
  {
    var cs := [chunk] + rest;
    forall i | 0 <= i < |cs| - 1 && |cs[i]| < ChunkLimit ensures EarlyCut(cs[i]) {
      if i > 0 {
        assert cs[i] == rest[i - 1];
      }
    }
  }

  /** A chunk other than the last is shorter than 1997 characters only when
      it ends at a period past index 1500. */
  lemma {:induction false} ChunksCutAtPeriods(remaining: string)
    ensures CutAtPeriods(Chunks(remaining))
    decreases |remaining|
  {
    if remaining != [] {
      var k := CutPoint(remaining);
      var rest := Drop(remaining, k);
      var chunk := Take(remaining, k);
      ChunksCutAtPeriods(rest);
      if rest != [] && |chunk| < ChunkLimit {
        assert k < |remaining| && chunk == remaining[..k];
        assert chunk[k - 1] == remaining[k - 1];
      }
      CutAtPeriodsCons(chunk, Chunks(rest));
    }
  }

  /** Reply splitting as a whole: nothing lost, short texts sent whole, long
      ones in at least two chunks within Discord's limit. */
  lemma ReplyPiecesProperties(text: string)
    ensures Concat(ReplyPieces(text)) == text
    ensures |text| <= ReplyLimit ==> ReplyPieces(text) == [text]
    ensures |text| > ReplyLimit ==>
              && |ReplyPieces(text)| >= 2
              && (forall i :: 0 <= i < |ReplyPieces(text)| ==> 0 < |ReplyPieces(text)[i]| <= ChunkLimit)
              && CutAtPeriods(ReplyPieces(text))
  {
    if |text| <= ReplyLimit {
      ConcatCons(text, []);
    } else {
      ChunksConcat(text);
      ChunksBounded(text);
      ChunksCutAtPeriods(text);
      var k := CutPoint(text);
      assert Drop(text, k) != [];
    }
  }

  /** One round of the loop: the chunk cut off the front, and the rest. */
  method NextChunk(remaining: string) returns (piece: string, rest: string)
    requires remaining != []
    ensures Chunks(remaining) == [piece] + Chunks(rest)
    ensures |rest| < |remaining|
  {
    var chunk := Take(remaining, ChunkLimit);
    var lastPeriod := LastIndexOf(chunk, '.');
    var splitAt := if lastPeriod > EarlyCutIndex then lastPeriod + 1 else ChunkLimit;
    assert splitAt == CutPoint(remaining);
    TakeOfTake(remaining, ChunkLimit, splitAt);
    ChunksStep(remaining);
    piece := Take(chunk, splitAt);
    rest := Drop(remaining, splitAt);
  }

  /** The `while (remaining.length > 0)` loop of the reply path. */
  method SplitReply(text: string) returns (chunks: seq<string>)
    ensures chunks == ReplyPieces(text)
    ensures Concat(chunks) == text
  {
    if |text| <= ReplyLimit {
      ConcatCons(text, []);
      return [text];
    }
    chunks := [];
    var remaining := text;
    assert [] + Chunks(text) == Chunks(text);
    while |remaining| > 0
      invariant chunks + Chunks(remaining) == Chunks(text)
      decreases |remaining|
    {
      var piece, rest := NextChunk(remaining);
      assert chunks + ([piece] + Chunks(rest)) == (chunks + [piece]) + Chunks(rest);
      chunks := chunks + [piece];
      remaining := rest;
    }
    assert chunks + [] == chunks;
    ChunksConcat(text);
  }

  // --------------------------------------------------------- chat replies

  const RateLimitNotice := "\U{26A0}\U{FE0F} Rate limit exceeded. Please try again later."
  const LoadingNotice := "\U{1F504} Model is loading. Try again in 30 seconds."
  const GenericNotice := "Sorry, an error occurred while processing your request."

  /** The reply to a failed model call, chosen from the error's message. */
  function ErrorNotice(errorMessage: string): (notice: string)
    ensures Contains(errorMessage, "Rate limit") ==> notice == RateLimitNotice
    ensures !Contains(errorMessage, "Rate limit") && Contains(errorMessage, "Model is loading") ==>
              notice == LoadingNotice
    ensures notice in {RateLimitNotice, LoadingNotice, GenericNotice}
  {
    if Contains(errorMessage, "Rate limit") then RateLimitNotice
    else if Contains(errorMessage, "Model is loading") then LoadingNotice
    else GenericNotice
  }

  /** The message `callHuggingFaceAPI` throws for a non-OK status. */
  function ApiFailure(status: nat): string {
    if status == 429 then "Rate limit exceeded"
    else if status == 503 then "Model is loading"
    else "API error: " + NatToString(status)
  }

  /** A status of 429 is reported as a rate limit, 503 as a loading model,
      and every other failure with the generic apology. */
  lemma ApiFailureNotice(status: nat)
    ensures ErrorNotice(ApiFailure(status)) ==
            if status == 429 then RateLimitNotice
            else if status == 503 then LoadingNotice
            else GenericNotice
  {
    var m := ApiFailure(status);
    if status == 429 {
      ContainsPrefix("Rate limit", " exceeded");
      assert "Rate limit" + " exceeded" == m;
    } else if status == 503 {
      LacksFirstChar(m, "Rate limit");
      ContainsPrefix(m, "");
      assert m + "" == m;
    } else {
      var digits := NatToString(status);
      assert m == "API error: " + digits;
      assert 'R' !in m && 'M' !in m by {
        forall i | 0 <= i < |m| ensures m[i] != 'R' && m[i] != 'M' {
          if i >= 11 {
            assert m[i] == digits[i - 11];
          }
        }
      }
      LacksFirstChar(m, "Rate limit");
      LacksFirstChar(m, "Model is loading");
    }
  }

  /** What the chat path ends in. */
  datatype ChatOutcome =
    | WaitNotice(text: string)
    | Silent
    | Replied(sent: seq<ChatMessage>, pieces: seq<string>)
    | Failed(sent: seq<ChatMessage>, notice: string)

  function WaitText(waitTime: int): string
    requires waitTime > 0
  {
    "Please wait " + NatToString(WaitSeconds(waitTime)) + "s before asking another question."
  }

  function HistoryOf(histories: map<string, seq<ChatMessage>>, user: string): seq<ChatMessage> {
    if user in histories then histories[user] else []
  }

  predicate AllBuffered(histories: map<string, seq<ChatMessage>>) {
    forall u :: u in histories ==> Buffered(histories[u])
  }

  /** Replacing one user's buffer by a well-formed one keeps them all well
      formed. */
  lemma HistoriesStayBuffered(histories: map<string, seq<ChatMessage>>, user: string, h: seq<ChatMessage>)
    requires AllBuffered(histories) && Buffered(h)
    ensures AllBuffered(histories[user := h])
  {
  }

  /** The bot's runtime memory: the three Maps of bot.js. */
  class BotMemory {
    var userCooldowns: map<string, int>
    var guildCooldowns: map<string, int>
    var conversationHistories: map<string, seq<ChatMessage>>

    ghost predicate Valid()
      reads this
    {
      AllBuffered(conversationHistories)
    }

    constructor ()
      ensures Valid()
      ensures userCooldowns == map[] && guildCooldowns == map[] && conversationHistories == map[]
    {
      userCooldowns := map[];
      guildCooldowns := map[];
      conversationHistories := map[];
    }

    /** `checkCooldown(userId, guildId)` at time `now`. */
    function CheckCooldown(user: string, guild: string, now: int): Cooldown
      reads this
    {
      CooldownDecision(Stamp(userCooldowns, user), Stamp(guildCooldowns, guild), now)
    }

    /** `updateCooldowns`: both timestamps become `now`; right after, the
        same user is refused for the full user cooldown. */
    method UpdateCooldowns(user: string, guild: string, now: int)
      modifies this
      ensures userCooldowns == old(userCooldowns)[user := now]
      ensures guildCooldowns == old(guildCooldowns)[guild := now]
      ensures conversationHistories == old(conversationHistories)
      ensures now != 0 ==> CheckCooldown(user, guild, now) == Denied(UserCooldown, UserCooldownMs)
    {
      userCooldowns := userCooldowns[user := now];
      guildCooldowns := guildCooldowns[guild := now];
    }

    /** The history push and trim of the chat path. */
    method RecordExchange(user: string, prompt: string, reply: string)
      requires Valid()
      modifies this
      ensures Valid()
      ensures conversationHistories ==
              old(conversationHistories)[user := Recorded(HistoryOf(old(conversationHistories), user), prompt, reply)]
      ensures userCooldowns == old(userCooldowns) && guildCooldowns == old(guildCooldowns)
    {
      var h := HistoryOf(conversationHistories, user);
      assert Buffered(h);
      var r := Recorded(h, prompt, reply);
      RecordedStaysBuffered(h, prompt, reply);
      HistoriesStayBuffered(conversationHistories, user, r);
      conversationHistories := conversationHistories[user := r];
    }

    /** `!admin restart`: an admin empties all three Maps. */
    method AdminRestart(isAdmin: bool)
      requires Valid()
      modifies this
      ensures Valid()
      ensures isAdmin ==>
                userCooldowns == map[] && guildCooldowns == map[] && conversationHistories == map[]
      ensures !isAdmin ==>
                && userCooldowns == old(userCooldowns)
                && guildCooldowns == old(guildCooldowns)
                && conversationHistories == old(conversationHistories)
    {
      if isAdmin {
        userCooldowns := map[];
        guildCooldowns := map[];
        conversationHistories := map[];
      }
    }

    /** `conversationHistories.get(userId)` after giving a user without a
        buffer an empty one. */
    method TouchHistory(user: string) returns (history: seq<ChatMessage>)
      requires Valid()
      modifies this
      ensures Valid()
      ensures history == HistoryOf(old(conversationHistories), user)
      ensures conversationHistories == old(conversationHistories)[user := history]
      ensures userCooldowns == old(userCooldowns) && guildCooldowns == old(guildCooldowns)
    {
      if user !in conversationHistories {
        HistoriesStayBuffered(conversationHistories, user, []);
        conversationHistories := conversationHistories[user := []];
      }
      history := conversationHistories[user];
    }

    /** The chat path once the cooldown and the channel have let the prompt
        through: both cooldowns restart, the user gets a buffer if it had
        none, and the model's answer is recorded and split, or its error
        turned into a notice. */
    method Respond(user: string, guildKey: string, instructions: string, prompt: string,
                   now: int, answer: Result<string, string>) returns (outcome: ChatOutcome)
      requires Valid()
      modifies this
      ensures Valid()
      ensures userCooldowns == old(userCooldowns)[user := now]
      ensures guildCooldowns == old(guildCooldowns)[guildKey := now]
      ensures var history := HistoryOf(old(conversationHistories), user);
              var sent := ModelMessages(instructions, history, prompt);
              match answer
              case Ok(text) =>
                && outcome == Replied(sent, ReplyPieces(text))
                && conversationHistories == old(conversationHistories)[user := Recorded(history, prompt, text)]
              case Err(error) =>
                && outcome == Failed(sent, ErrorNotice(error))
                && conversationHistories == old(conversationHistories)[user := history]
    {
      UpdateCooldowns(user, guildKey, now);
      var history := TouchHistory(user);
      var sent := ModelMessages(instructions, history, prompt);
      match answer {
        case Ok(text) =>
          RecordExchange(user, prompt, text);
          var pieces := SplitReply(text);
          outcome := Replied(sent, pieces);
        case Err(message) =>
          outcome := Failed(sent, ErrorNotice(message));
      }
    }

    /** The chat path for an extracted prompt: the cooldown check, then the
        channel check, then the answer of the model (the parameter
        `answer`). */
    method HandleChat(user: string, guild: Option<string>, channel: string,
                      allowed: Option<seq<string>>, instructions: string, prompt: string,
                      now: int, answer: Result<string, string>) returns (outcome: ChatOutcome)
      requires Valid()
      modifies this
      ensures Valid()
      ensures var c := old(CheckCooldown(user, GuildKey(guild), now));
              c.Denied? ==> outcome == WaitNotice(WaitText(c.waitTime)) && unchanged(this)
      ensures old(CheckCooldown(user, GuildKey(guild), now)).Allowed? && !IsChannelAllowed(channel, allowed) ==>
                outcome == Silent && unchanged(this)
      ensures old(CheckCooldown(user, GuildKey(guild), now)).Allowed? && IsChannelAllowed(channel, allowed) ==>
                var history := HistoryOf(old(conversationHistories), user);
                var sent := ModelMessages(instructions, history, prompt);
                && userCooldowns == old(userCooldowns)[user := now]
                && guildCooldowns == old(guildCooldowns)[GuildKey(guild) := now]
                && match answer
                   case Ok(text) =>
                     && outcome == Replied(sent, ReplyPieces(text))
                     && conversationHistories == old(conversationHistories)[user := Recorded(history, prompt, text)]
                   case Err(error) =>
                     && outcome == Failed(sent, ErrorNotice(error))
                     && conversationHistories == old(conversationHistories)[user := history]
    {
      var guildKey := GuildKey(guild);
      var check := CheckCooldown(user, guildKey, now);
      if check.Denied? {
        CooldownCases(Stamp(userCooldowns, user), Stamp(guildCooldowns, guildKey), now);
        return WaitNotice(WaitText(check.waitTime));
      }
      if !IsChannelAllowed(channel, allowed) {
        return Silent;
      }
      outcome := Respond(user, guildKey, instructions, prompt, now, answer);
    }
  }

  /** Another user of the same guild is held back by the guild cooldown for
      one second after a reply. */
  lemma GuildCooldownHoldsOthers(guildStamp: int, otherUserStamp: Option<int>, now: int)
    requires guildStamp != 0 && guildStamp <= now < guildStamp + GuildCooldownMs
    requires !Recent(otherUserStamp, now, UserCooldownMs)
    ensures CooldownDecision(otherUserStamp, Some(guildStamp), now) ==
            Denied(GuildCooldown, GuildCooldownMs - (now - guildStamp))
  {
  }

  /** Three seconds after its last reply a user is free again, in any guild
      whose last reply is at least a second old. */
  lemma CooldownExpires(userStamp: int, guildStamp: int, now: int)
    requires now >= userStamp + UserCooldownMs && now >= guildStamp + GuildCooldownMs
    ensures CooldownDecision(Some(userStamp), Some(guildStamp), now) == Allowed
  {
  }
}

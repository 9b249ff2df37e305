# Discord AI bot and admin dashboard: a Dafny model

This project models the decision logic of an AI-powered Discord bot and its
administration dashboard, and proves properties about it.

The system has the following parts:

- **Store.** Supabase's `conversations` table holds one row per exchange.
  Each row keeps a channel, a user, the user's message, the bot's answer and
  a context summary.
- **Context manager.** It reads a (channel, user) partition's most recent
  exchanges. It builds a rolling summary and a transcript of previous
  exchanges from them, and composes a prompt. It also records new exchanges,
  keeping the newest 50 rows per partition.
- **`/api/context` route.** It exposes the context manager through GET and POST.
- **Image-prompt utilities.** The dashboard's helpers for image generation:
  prompt validation, token estimate, prompt enhancement, and the mapping from
  Clipdrop errors to messages.
- **Bot.** The Discord bot reads the admin settings. Its decisions:
  - whether a channel is allowed;
  - per-user and per-guild cooldowns;
  - which command a message is;
  - what prompt it extracts;
  - keeping a six-entry history buffer per user;
  - building the message list for the model;
  - splitting long replies into Discord-sized chunks;
  - reporting failures.
- **Dashboard page.** It edits the channel allow list and saves the settings
  record. It derives memory statistics from the store, and deletes
  conversations in bulk.

Modules:

| module | file | models |
|---|---|---|
| `Wrappers` | wrappers.dfy | `Option`, `Result` |
| `Sequences` | sequences.dfy | `filter`, `reverse`, `slice`/`limit` on sequences |
| `Text` | text.dfy | JavaScript's `trim`, `toLowerCase`, `includes`, `startsWith`, `split`, `join`, `lastIndexOf`, `replace`, number formatting |
| `ConversationStore` | conversation_store.dfy | the `conversations` table as a class, its partitions, windows and retention |
| `ContextManager` | context_manager.dfy | admin-dashboard/lib/context-manager.js |
| `ContextRoute` | context_route.dfy | admin-dashboard/app/api/context/route.js |
| `ImageGeneration` | image_generation.dfy | admin-dashboard/utils/image-generation.js |
| `DiscordBot` | discord_bot.dfy | discord-bot/bot.js |
| `Dashboard` | dashboard.dfy | admin-dashboard/app/dashboard/page.js |

How the outside world is represented:

- **Store and services.** Store failures, the model's answer, the Clipdrop
  reply, confirmation dialogs, the admin check and the clock are parameters.
- **Store order.** The store keeps rows in insertion order with identifiers
  1, 2, 3, …. Ordering by `created_at` is therefore ordering by position,
  and the dashboard's `created_at` values are represented by row identifiers.
- **Exchanges.** Each exchange is a `Turn(userMessage, response)`. The
  dashboard code writes the answer to `bot_response` (lib/context-manager.js
  line 84), while the bot writes `ai_response` (bot.js line 820). The
  dashboard page reads `ai_response` (page.js line 99). The model uses the
  single field `response`, as if all writers and readers agreed.
- **Duplicate route code.** `route.js` lines 5-119 hold a second copy of the
  `ContextManager` class of `lib/context-manager.js`. It behaves the same as
  the library's class, except that it has no `clearConversation` method and
  fewer comments. Both copies are modelled once, by `ContextManager`. The
  route never clears: its `clearConversations` action answers status 200
  with `success: false` and "Clear method not implemented", and does not
  touch the store.

## Model

| member | source | states |
|---|---|---|
| ConversationStore.Partition | admin-dashboard/lib/context-manager.js:7-11 | a partition read holds exactly the table's rows with that channel and user |
| ConversationStore.Window | admin-dashboard/lib/context-manager.js:7-18 | the newest-first read limited to `limit` rows and then reversed is the partition's last `limit` rows in store order |
| ConversationStore.WindowIsNewestOfPartition | admin-dashboard/lib/context-manager.js:5-18 | the window has at most `limit` rows, all from the partition, oldest first, and no row left out is newer than a row kept |
| ConversationStore.NewestOfPartition | admin-dashboard/lib/context-manager.js:12-18 | the window is the partition's newest rows, in increasing id order |
| ConversationStore.LastNNewest | admin-dashboard/lib/context-manager.js:12-13 | the last n rows keep increasing ids, and every dropped row is older than every kept one |
| ConversationStore.FilterKeepsIdsIncreasing | admin-dashboard/lib/context-manager.js:115-118 | a delete keeps the remaining ids in increasing order |
| ConversationStore.PartitionIdsIncreasing | admin-dashboard/lib/context-manager.js:7-11 | a partition of a table with increasing ids has increasing ids |
| ConversationStore.DistinctRowsDistinctIds | admin-dashboard/lib/context-manager.js:113 | two different rows of the table never share an id, so deleting by id hits only the chosen rows |
| ConversationStore.FilterIdsDropsPrefix | admin-dashboard/lib/context-manager.js:113-118 | deleting exactly the ids of the first j rows leaves the rows from j on |
| ConversationStore.ExcessIds | admin-dashboard/lib/context-manager.js:103-113 | the ids of the partition's rows beyond its `keep` newest, listed newest first; which rows these are is stated by `ExcessIdsAreOldest` |
| ConversationStore.ExcessIdsAreOldest | admin-dashboard/lib/context-manager.js:103-113 | the ids `slice(keepCount)` selects are exactly those of the partition's rows older than its `keep` newest |
| ConversationStore.Pruned | admin-dashboard/lib/context-manager.js:101-119 | the cleanup issues its delete only above `keep` rows: at or below it the table is unchanged, and it never adds a row (its effect on each partition is stated by `PrunedPartition` and `PrunedOtherPartition`) |
| ConversationStore.PrunedPartition | admin-dashboard/lib/context-manager.js:101-121 | after the cleanup the partition is exactly its `keep` newest rows |
| ConversationStore.PrunedOtherPartition | admin-dashboard/lib/context-manager.js:101-121 | the cleanup leaves every other partition unchanged |
| ConversationStore.PrunedIdsIncreasing | admin-dashboard/lib/context-manager.js:101-121 | the cleanup keeps ids increasing |
| ConversationStore.PrunedIdempotent | admin-dashboard/lib/context-manager.js:112 | a second cleanup changes nothing, because it finds at most `keep` rows |
| ConversationStore.ClearedPartition | admin-dashboard/lib/context-manager.js:128-134 | deleting a partition empties it and leaves every other partition as it was |
| ConversationStore.AppendedPartition | admin-dashboard/lib/context-manager.js:78-86 | an insert extends its own partition at the newest end and no other |
| ConversationStore.Table.constructor | admin-dashboard/lib/context-manager.js:78-86 | the table starts empty, with the first id 1 |
| ConversationStore.Table.Insert | admin-dashboard/lib/context-manager.js:78-86 | an insert appends one row with the next id and keeps the table valid |
| ConversationStore.Table.DeleteWhere | admin-dashboard/lib/context-manager.js:115-118 | a filtered delete keeps exactly the rows the filter accepts, in order |
| ConversationStore.Turns | admin-dashboard/lib/context-manager.js:47-48 | the exchanges of the rows, one per row, in order |
| ConversationStore.Ids | admin-dashboard/lib/context-manager.js:105-113 | the ids of the rows, one per row, in order |
| ContextManager.SummaryLines | admin-dashboard/lib/context-manager.js:31-32 | one summary line per exchange, in order |
| ContextManager.CreateSummary | admin-dashboard/lib/context-manager.js:26-36 | the summary is empty exactly when there is no exchange |
| ContextManager.SummaryOfLastThree | admin-dashboard/lib/context-manager.js:29-35 | with three or more exchanges, the summary is the header followed by the lines of exactly the last three, oldest first, separated by line feeds |
| ContextManager.SummaryStartsWithHeader | admin-dashboard/lib/context-manager.js:35 | a non-empty summary starts with "Recent conversation summary:\n" |
| ContextManager.SummaryIgnoresOlderTurns | admin-dashboard/lib/context-manager.js:30 | exchanges older than the last three never change the summary |
| ContextManager.SummaryEndsWithNewest | admin-dashboard/lib/context-manager.js:30-35 | the summary ends with the line of the newest exchange |
| ContextManager.SummaryLineHasNoLineFeed | admin-dashboard/lib/context-manager.js:32 | a summary line of messages without line feeds has no line feed |
| ContextManager.TitleHoldsNoLineFeed | admin-dashboard/lib/context-manager.js:35 | the summary title has no line feed |
| ContextManager.HeaderHoldsOneLineFeed | admin-dashboard/lib/context-manager.js:35 | the summary header has exactly one line feed |
| ContextManager.SummaryLinesHaveNoLineFeed | admin-dashboard/lib/context-manager.js:31-32 | summary lines of messages without line feeds have no line feed |
| ContextManager.RecentHaveNoLineFeed | admin-dashboard/lib/context-manager.js:30 | the last three exchanges of line-feed-free exchanges are line-feed free |
| ContextManager.SummaryLineCount | admin-dashboard/lib/context-manager.js:29-35 | when no message holds a line feed, the summary has exactly min(3, n) line feeds: the header and one line per summarised exchange |
| ContextManager.SummaryLineBounded | admin-dashboard/lib/context-manager.js:32 | a summary line is at most the two labels plus 100 characters of each message |
| ContextManager.JoinLengthBound | admin-dashboard/lib/context-manager.js:33 | joining n strings of at most b characters gives at most n·b characters plus n-1 separators |
| ContextManager.SummaryBounded | admin-dashboard/lib/context-manager.js:26-36 | whatever the history, the summary length is bounded by a constant |
| ContextManager.ExchangeBlocks | admin-dashboard/lib/context-manager.js:47-48 | one `User: m\nAssistant: r` block per exchange, in order |
| ContextManager.PreviousExchanges | admin-dashboard/lib/context-manager.js:47-49 | the transcript is empty exactly for no exchanges, and starts with the first block and ends with the last |
| ContextManager.TranscriptAppend | admin-dashboard/lib/context-manager.js:47-49 | one more exchange appends a blank line and its block to the end of a non-empty transcript, so the blocks stay in window order |
| ContextManager.HistoryLength | admin-dashboard/app/api/context/route.js:151 | `historyLength` is 0 exactly when the transcript is empty (its count of pieces is stated by `HistoryLengthCountsTurns`) |
| ContextManager.SplitCountOfJoinAtLeast | admin-dashboard/app/api/context/route.js:151 | splitting a blank-line join gives at least as many pieces as were joined |
| ContextManager.ExchangeBlockAddsNoSeparator | admin-dashboard/app/api/context/route.js:151 | a block of line-feed-free messages adds no blank-line separator |
| ContextManager.SplitCountOfBlocks | admin-dashboard/app/api/context/route.js:151 | for line-feed-free exchanges, splitting the transcript at blank lines gives back one piece per exchange |
| ContextManager.HistoryLengthCountsTurns | admin-dashboard/app/api/context/route.js:151 | `historyLength` is 0 exactly for an empty window, never less than the number of exchanges, and equal to it when no message holds a line feed |
| ContextManager.FullContext | admin-dashboard/lib/context-manager.js:57-66 | the `fullContext` template; its shape is stated by `PromptFrame`, `PromptSummaryBlock`, `PromptPreviousBlock` and `EmptyHistoryPrompt` |
| ContextManager.Assemble | admin-dashboard/lib/context-manager.js:39-68 | the object `assembleContext` returns: the instructions and current message as given, a summary and a transcript that are empty exactly when the history is, and the prompt built from those four parts |
| ContextManager.PromptFrame | admin-dashboard/lib/context-manager.js:57-66 | the prompt opens with the instructions block, ends with the current message and `ASSISTANT RESPONSE:`, and contains both texts |
| ContextManager.PromptSummaryBlock | admin-dashboard/lib/context-manager.js:61 | a non-empty summary block sits right after the instructions block, and an empty summary leaves no trace |
| ContextManager.PromptPreviousBlock | admin-dashboard/lib/context-manager.js:62 | the previous-conversation block sits one line feed after the summary block, and an empty transcript leaves no trace |
| ContextManager.EmptyHistoryPrompt | admin-dashboard/lib/context-manager.js:39-66 | with no history, the prompt is the instructions and the current message alone |
| ContextManager.SummaryOfTwo | admin-dashboard/lib/context-manager.js:26-36 | the summary of two exchanges is the header and their two lines |
| ContextManager.TwoTurnSummary | admin-dashboard/lib/context-manager.js:26-36 | the summary of the exchanges ("hi", "hello!") and ("bye", "see you"), written out |
| ContextManager.TranscriptOfTwo | admin-dashboard/lib/context-manager.js:47-49 | the transcript of two exchanges is their two blocks joined by a blank line |
| ContextManager.TwoTurnTranscript | admin-dashboard/lib/context-manager.js:47-49 | the transcript of the same two exchanges, written out |
| ContextManager.ExampleBlocks | admin-dashboard/lib/context-manager.js:48 | the blocks of those exchanges, written out |
| ContextManager.GetConversationContext | admin-dashboard/lib/context-manager.js:5-23 | at most `limit` rows, all in the partition, oldest first, the partition's window; a failed read gives the empty sequence |
| ContextManager.AssembleContext | admin-dashboard/lib/context-manager.js:39-68 | the prompt assembled from the default window of 5, or from no history when the read fails |
| ContextManager.CleanupOldConversations | admin-dashboard/lib/context-manager.js:101-125 | keeps the partition's `keep` newest rows and touches no other partition; a failed select or delete leaves the table unchanged |
| ContextManager.SaveConversation | admin-dashboard/lib/context-manager.js:71-98 | returns false exactly when the insert fails, leaving the table unchanged. On success it appends a row whose summary covers the window plus the new exchange, then prunes the partition to its newest 50 rows; a pruning failure is swallowed. Other partitions are unchanged |
| ContextManager.ClearConversation | admin-dashboard/lib/context-manager.js:128-142 | removes every row of the partition and no other, or nothing when the delete fails |
| ContextRoute.Get | admin-dashboard/app/api/context/route.js:125-152 | missing or empty parameters give 400 `Missing required parameters`; otherwise the assembled context, the summary and `historyLength`, which is 0 exactly for an empty window |
| ContextRoute.Route | admin-dashboard/app/api/context/route.js:162-241 | the action dispatch: no action gives 400; each action runs exactly when its required fields are present; everything else is rejected with 400 |
| ContextRoute.RouteIgnoresUnusedFields | admin-dashboard/app/api/context/route.js:182-203 | saving does not depend on `instructions`, and reading does not depend on `botResponse` |
| ContextRoute.Post | admin-dashboard/app/api/context/route.js:162-249 | a non-JSON body gives 500; only `saveConversation` changes the table; each action's response and status as the handler sends it; after `saveConversation`, a failed insert leaves the table as it was, otherwise the new row is appended with its summary and the partition pruned as `saveConversation` does, so that without prune faults the partition is the newest 50 of the old partition plus the new row; every other partition is unchanged |
| ImageGeneration.ValidatePrompt | admin-dashboard/utils/image-generation.js:85-120 | valid exactly when no banned word occurs in the lower-cased prompt and its length is 3 to 1000; banned words are checked first, then the maximum, then the minimum |
| ImageGeneration.EstimateTokenUsage | admin-dashboard/utils/image-generation.js:123-127 | the estimate is the least n with 4n ≥ length, and 0 exactly for the empty prompt |
| ImageGeneration.EstimateMonotone | admin-dashboard/utils/image-generation.js:123-127 | a longer prompt never gets a smaller estimate |
| ImageGeneration.EnhancePrompt | admin-dashboard/utils/image-generation.js:130-152 | at most 1000 characters; a prompt with a quality keyword is at most truncated; otherwise the result is a prefix of the prompt followed by ", high quality, detailed" |
| ImageGeneration.SuffixAddsQuality | admin-dashboard/utils/image-generation.js:138-144 | the appended suffix itself carries a quality keyword |
| ImageGeneration.EnhanceIdempotent | admin-dashboard/utils/image-generation.js:130-152 | enhancing an enhanced prompt changes nothing |
| ImageGeneration.RequestFields | admin-dashboard/utils/image-generation.js:16-22 | the form holds the prompt, and the negative prompt exactly when one is set |
| ImageGeneration.StatusError | admin-dashboard/utils/image-generation.js:41-54 | the error thrown for a failed response; its fixed and generic cases are stated by `StatusErrorCases` |
| ImageGeneration.StatusErrorCases | admin-dashboard/utils/image-generation.js:33-55 | statuses 400, 401, 402, 403 and 429 have fixed messages that ignore the body; any other status gives `API error: <status> - <body>`, which keeps different bodies apart |
| ImageGeneration.GenerateImage | admin-dashboard/utils/image-generation.js:4-82 | no API key gives the configuration error whatever the reply; success exactly with a key and image data, with the fixed model and size; an HTTP error gives its status message |
| ImageGeneration.MissingKeyIgnoresReply | admin-dashboard/utils/image-generation.js:7-12 | without a key the request's outcome makes no difference |
| DiscordBot.IsChannelAllowed | discord-bot/bot.js:118-124 | a missing or empty allow-list allows every channel, a non-empty one exactly its members; how it changes as channels are added is stated by `AllowListGrowth` |
| DiscordBot.AllowListGrowth | discord-bot/bot.js:118-124 | adding the first channel turns "everywhere" into "only there"; adding to a non-empty list only widens it |
| DiscordBot.CooldownDecision | discord-bot/bot.js:126-146 | the `checkCooldown` result for given stamps and clock; its cases are stated by `CooldownCases` |
| DiscordBot.BotMemory.CheckCooldown | discord-bot/bot.js:126-146 | `checkCooldown` over the bot's two stamp maps; how the stamps deny or expire is stated by `GuildCooldownHoldsOthers` and `CooldownExpires` |
| DiscordBot.CooldownCases | discord-bot/bot.js:126-148 | the user check wins; exactly which stamp denies; every denial asks for a positive wait no longer than the window |
| DiscordBot.WaitSeconds | discord-bot/bot.js:775 | the seconds shown are the ceiling of the wait in milliseconds divided by 1000 |
| DiscordBot.GuildCooldownHoldsOthers | discord-bot/bot.js:138-145 | within a second of a guild's last answer, any other user of that guild is held back by the guild cooldown |
| DiscordBot.CooldownExpires | discord-bot/bot.js:126-148 | three seconds after a user's last answer, and one after the guild's, the user is allowed again |
| DiscordBot.Recorded | discord-bot/bot.js:801-808 | the history after an exchange is pushed and the oldest pair dropped above 6 entries; its properties are stated by `RecordedStaysBuffered` |
| DiscordBot.RecordedStaysBuffered | discord-bot/bot.js:801-808 | the buffer stays alternating user/assistant with at most 6 entries; it is the last 6 entries of the history with the new exchange, and it ends with that exchange |
| DiscordBot.HistoriesStayBuffered | discord-bot/bot.js:790-808 | replacing one user's buffer by a well-formed one keeps every buffer well formed |
| DiscordBot.ModelMessages | discord-bot/bot.js:160-164 | the messages sent to the model; their shape is stated by `ModelMessagesShape` |
| DiscordBot.ModelMessagesShape | discord-bot/bot.js:160-164 | the model gets the system message, then the whole buffer, then the prompt, with roles alternating from the user |
| DiscordBot.ValidateImagePrompt | discord-bot/bot.js:496-515 | valid exactly when the prompt is not blank, has at most 1000 characters and contains no blocked term; the checks apply in that order |
| DiscordBot.DashboardValidImpliesBotValid | discord-bot/bot.js:505-512 | a prompt the dashboard accepts that is not blank and has no "explicit" passes the bot's check too |
| DiscordBot.BlockedTermsAgainstBanned | discord-bot/bot.js:505 | where each of the bot's blocked terms sits among the dashboard's banned words |
| DiscordBot.BlockedWithinBanned | discord-bot/bot.js:505-512 | a text free of every banned word and of "explicit" contains no blocked term |
| DiscordBot.HandleMessage | discord-bot/bot.js:701-771 | a message written by a bot is ignored before anything else is looked at; a person's message is dispatched |
| DiscordBot.SilentExactlyWhenUnaddressed | discord-bot/bot.js:701-757 | the handler stays silent exactly for bots' messages and for people's messages that are no command, have no `!ai` or `!ask` prefix and do not mention the bot |
| DiscordBot.Dispatch | discord-bot/bot.js:706-771 | the command a person's message selects; its order and cases are stated by `BasicCommandsFirst`, `UnprefixedIsNotBasicOrImage`, `AdminFallsBackToHelp` and `ImageWithoutArgumentsRefused` |
| DiscordBot.BasicCommandsFirst | discord-bot/bot.js:706-719 | `!help`, `!ping` and `!clear`, in any case, are handled before anything else |
| DiscordBot.UnprefixedIsNotBasicOrImage | discord-bot/bot.js:709-746 | a message whose second character starts none of the command names is neither a basic nor an image command |
| DiscordBot.AdminFallsBackToHelp | discord-bot/bot.js:721-736 | an `!admin` message without a known subcommand shows the admin help |
| DiscordBot.ImageWithoutArgumentsRefused | discord-bot/bot.js:740-744 | an image command without a space gets the usage text |
| DiscordBot.ChatPrompt | discord-bot/bot.js:760-766 | the prompt after `!ai`, after `!ask`, or with the bot's mention removed; `AiPrefixRoundTrip`, `AskPrefixRoundTrip` and `ChatPromptIsTrimmed` state what it yields |
| DiscordBot.ChatCommand | discord-bot/bot.js:748-771 | the chat path's command: silence without a prefix or mention, the usage reply for an empty prompt, otherwise a chat; `ChatCommandIsTrimmed` says the prompt is non-empty and trimmed |
| DiscordBot.ChatCommandIsTrimmed | discord-bot/bot.js:760-771 | a chat prompt is never empty and is already trimmed |
| DiscordBot.ChatPromptIsTrimmed | discord-bot/bot.js:706-771 | whatever reaches the model as a prompt is non-empty and trimmed |
| DiscordBot.AiPrefixRoundTrip | discord-bot/bot.js:761-762 | `!ai <question>` asks exactly the question |
| DiscordBot.AskPrefixRoundTrip | discord-bot/bot.js:763-764 | `!ask <question>` asks exactly the question |
| DiscordBot.CutPoint | discord-bot/bot.js:836-838 | the cut lies between 1502 and 1997, and any cut before 1997 falls just after a period |
| DiscordBot.Chunks | discord-bot/bot.js:832-841 | the chunks of a long reply; `ChunksConcat`, `ChunksBounded` and `ChunksCutAtPeriods` state that they rebuild the text, are bounded and end at periods |
| DiscordBot.ChunksStep | discord-bot/bot.js:835-841 | one loop round: the first chunk, then the chunks of the rest |
| DiscordBot.ChunksConcat | discord-bot/bot.js:832-841 | the chunks put together are the text |
| DiscordBot.ChunksBounded | discord-bot/bot.js:836-839 | every chunk is non-empty and at most 1997 characters |
| DiscordBot.CutAtPeriodsCons | discord-bot/bot.js:838 | adding a full chunk, or one cut at a period, in front keeps the cut property |
| DiscordBot.ChunksCutAtPeriods | discord-bot/bot.js:836-840 | every chunk but the last is either 1997 characters or ends at a period past index 1500 |
| DiscordBot.ReplyPieces | discord-bot/bot.js:829-841 | the messages a reply is sent as; their properties are stated by `ReplyPiecesProperties` |
| DiscordBot.ReplyPiecesProperties | discord-bot/bot.js:829-847 | nothing is lost; a text of at most 2000 characters is sent whole; a longer one is sent as at least two chunks, all bounded and cut at periods |
| DiscordBot.NextChunk | discord-bot/bot.js:836-840 | one round cuts off the first chunk and leaves a shorter rest |
| DiscordBot.SplitReply | discord-bot/bot.js:829-847 | the loop returns exactly the reply pieces, which put together are the text |
| DiscordBot.ErrorNotice | discord-bot/bot.js:852-858 | "Rate limit" in the error gives the rate-limit notice, otherwise "Model is loading" gives the loading notice, otherwise the generic one |
| DiscordBot.ApiFailureNotice | discord-bot/bot.js:187-193 | the user sees the rate-limit notice for 429, the loading notice for 503, the generic notice otherwise |
| DiscordBot.BotMemory.constructor | discord-bot/bot.js:58-60 | the three maps start empty |
| DiscordBot.BotMemory.UpdateCooldowns | discord-bot/bot.js:150-154 | both timestamps become `now`, and right after, the user is denied for the full user window |
| DiscordBot.BotMemory.RecordExchange | discord-bot/bot.js:801-808 | the user's buffer becomes the recorded buffer, and the cooldowns are unchanged |
| DiscordBot.BotMemory.AdminRestart | discord-bot/bot.js:442-466 | an admin empties all three maps; anyone else changes nothing |
| DiscordBot.BotMemory.TouchHistory | discord-bot/bot.js:790-793 | returns the user's buffer, created empty if missing |
| DiscordBot.BotMemory.Respond | discord-bot/bot.js:785-861 | stamps both cooldowns and sends the model the message list. An answer is recorded and replied in pieces. A failure keeps the buffer and replies with the error notice |
| DiscordBot.BotMemory.HandleChat | discord-bot/bot.js:773-861 | a cooldown gives the wait notice and changes nothing; a channel not allowed gives silence and changes nothing; otherwise it responds |
| Dashboard.AddChannelOutcome | admin-dashboard/app/dashboard/page.js:342-357 | ignored exactly when the trimmed input is empty; a duplicate exactly when the trimmed input is listed; otherwise the list with the trimmed input appended |
| Dashboard.AddChannelKeepsDistinct | admin-dashboard/app/dashboard/page.js:346-356 | adding keeps a duplicate-free list duplicate-free, and the added entry is listed, non-empty and trimmed |
| Dashboard.SpliceStart | admin-dashboard/app/dashboard/page.js:183 | the start `splice` uses: the index when it is within the list, counted from the end when negative, clamped to the list |
| Dashboard.RemoveAt | admin-dashboard/app/dashboard/page.js:181-185 | `splice(index, 1)` of the channel list; its effect is stated by `RemoveAtProperties` |
| Dashboard.RemoveAtProperties | admin-dashboard/app/dashboard/page.js:181-185 | removing at an index within the list removes exactly that entry, keeping the others in order; past the end nothing is removed; a duplicate-free list stays so and loses the entry |
| Dashboard.MergedChannels | admin-dashboard/app/dashboard/page.js:141-143 | the list saved with the pending input merged in; its contents are stated by `MergedChannelsProperties` and `MergeKeepsDuplicates` |
| Dashboard.MergedChannelsProperties | admin-dashboard/app/dashboard/page.js:141-143 | with no pending input the list is saved as is. Otherwise the saved list holds exactly the listed channels and the trimmed input, no empty entry. It is the list with the input appended when the input trims to something and the list had no empty entry |
| Dashboard.MergeKeepsDuplicates | admin-dashboard/app/dashboard/page.js:141-143 | a pending channel already in the list is saved a second time |
| Dashboard.SaveAttempt | admin-dashboard/app/dashboard/page.js:135-175 | instructions over 4000 characters are rejected before any write; a failed upsert reports its message or the default; a write stores id 1, the instructions and the merged list |
| Dashboard.SavedChannelsAreAllowed | admin-dashboard/app/dashboard/page.js:141-153 | after a save, the bot allows every non-empty listed channel and the trimmed pending one, and once the list is non-empty it allows only those |
| Dashboard.KeySetBounds | admin-dashboard/app/dashboard/page.js:105-106 | the distinct users and channels are at most one per row, and none exactly for an empty table |
| Dashboard.DeriveStats | admin-dashboard/app/dashboard/page.js:71-110 | the memory statistics of a table; `NewestFirstOrder`, `StatsCounts`, `StatsNewestOldest` and `StatsRecent` state their values |
| Dashboard.NewestFirstOrder | admin-dashboard/app/dashboard/page.js:71-75 | the read holds min(n, 100) rows, the table's newest first |
| Dashboard.StatsCounts | admin-dashboard/app/dashboard/page.js:75-106 | at most 100 conversations are counted; the distinct counts are at most the rows and zero only for an empty table |
| Dashboard.StatsNewestOldest | admin-dashboard/app/dashboard/page.js:107-108 | the newest is the table's newest row, whose id bounds all others; the oldest is the oldest of the newest 100 |
| Dashboard.StatsRecent | admin-dashboard/app/dashboard/page.js:109 | the recent conversations are the table's five newest rows, newest first |
| Dashboard.FailedLoadIsEmpty | admin-dashboard/app/dashboard/page.js:114-123 | a failed read gives the all-zero stats, whatever the table holds |
| Dashboard.ResetEmptiesTable | admin-dashboard/app/dashboard/page.js:193 | deleting the rows whose id is not 0 empties a table numbered from 1 |
| Dashboard.ClearUserProperties | admin-dashboard/app/dashboard/page.js:214-217 | clearing a user removes exactly that user's rows, the distinct users lose exactly that user, and a second clear changes nothing |
| Dashboard.ClearChannelProperties | admin-dashboard/app/dashboard/page.js:239-242 | clearing a channel removes exactly that channel's rows, the distinct channels lose exactly that channel, and a second clear changes nothing |
| Dashboard.ClearsCommute | admin-dashboard/app/dashboard/page.js:203-251 | clearing a user and clearing a channel give the same table in either order |
| Dashboard.SettingsTable.constructor | admin-dashboard/app/dashboard/page.js:145-153 | the settings table starts without the row |
| Dashboard.DashboardPage.constructor | admin-dashboard/app/dashboard/page.js:7-19 | the page state starts with the `useState` initial values |
| Dashboard.DashboardPage.AddChannel | admin-dashboard/app/dashboard/page.js:342-357 | updates the list, the input and the status as the add outcome says, changes nothing else, and keeps the list duplicate-free |
| Dashboard.DashboardPage.RemoveChannel | admin-dashboard/app/dashboard/page.js:181-185 | the list becomes the copy with `splice(index, 1)` applied, and nothing else changes |
| Dashboard.DashboardPage.SaveSettings | admin-dashboard/app/dashboard/page.js:129-179 | does nothing while a save is running. Otherwise: a rejection or failure sets the error status and writes nothing; a write stores the settings, replaces the list with the merged one, clears the input and sets the success status |
| Dashboard.DashboardPage.LoadMemoryStats | admin-dashboard/app/dashboard/page.js:67-127 | the stats derived from the table, or the empty stats when a read fails; the preview is the recent rows |
| Dashboard.DashboardPage.ResetMemory | admin-dashboard/app/dashboard/page.js:187-201 | unconfirmed: nothing; a failed delete: the error alert and no change; otherwise every row goes, the stats are refreshed (the preview becomes the newest five rows, or stays as it was when the read fails) and the done alert shown; the channel editor and the save status are untouched |
| Dashboard.DashboardPage.ClearUserMemory | admin-dashboard/app/dashboard/page.js:203-226 | no selected user: the selection alert and no change; unconfirmed or failed: no change; otherwise exactly the user's rows are deleted and the stats refreshed (the preview becomes the newest five remaining rows, or stays as it was when the read fails); the channel editor and the save status are untouched |
| Dashboard.DashboardPage.ClearChannelMemory | admin-dashboard/app/dashboard/page.js:228-251 | no selected channel: the selection alert and no change; unconfirmed or failed: no change; otherwise exactly the channel's rows are deleted and the stats refreshed (the preview becomes the newest five remaining rows, or stays as it was when the read fails); the channel editor and the save status are untouched |

## Left out

- Dashboard.DeriveStats assumes the unlimited reads of user and channel ids (page.js lines 80-90) return every row. A hosted Supabase API caps each response at its max-rows setting, which would make the distinct counts undercount a larger table; the model has no such cap.
- Network and vendor calls are parameters of the model:
  - the Hugging Face `fetch` (bot.js lines 166-211);
  - the Clipdrop HTTPS request in bot.js and in image-generation.js, and `response.blob()` and `FileReader`.
- Supabase itself is an in-memory table. Its failures are boolean or message parameters.
- Discord plumbing is not modelled: client setup, login, typing indicators, embeds, replies and edits, the restart status timer, and SIGINT handling.
- The React page lifecycle is not modelled: rendering, the loading and session checks, `loadSettings`, the preview loaders, logout, and the 5-second timer that clears the save status.
- Concurrency is not modelled. Handlers run one at a time. The `isSaving` guard is modelled as a field, but no overlapping save is.
- `getBotConfig`, `isUserAdmin` and the `!admin stats` and `!admin channels` commands read the store. Their results are parameters (the allow list, the admin flag) or not modelled.
- The `!clear` handler is only recognised by the dispatch, not run. It deletes rows and has an empty memory loop.
- The bot's own insert into `conversations` (bot.js lines 812-826) is not modelled. It writes the `ai_response` column and never prunes, and its failure is ignored.
- The bot's image path after validation (bot.js lines 517-683) is I/O. Only its prompt check is modelled.
- The 500 catch branches of the route's GET and POST for exceptions inside the store client are not modelled. Read failures are modelled as the context manager swallows them.
- Text.ToLower: `toLowerCase` is modelled for ASCII letters only.
- Lengths count characters, where JavaScript counts UTF-16 code units.
- ContextRoute.Get: query parameters and body fields are strings or absent. Non-string JSON values are not modelled.
- DiscordBot.HandleChat takes the clock value as a parameter. One value `now` stands for both `Date.now()` calls: the one in `checkCooldown` (bot.js line 127) and the one in `updateCooldowns` (bot.js line 151). The source makes these calls separately, with the model call in between, so its stored timestamps can be later than the time the check used.
  - A stored timestamp of 0 counts as absent, as JavaScript's truthiness test does.
  - The clock's 64-bit float arithmetic is not modelled.
- ContextManager.HistoryLengthCountsTurns: the equality with the number of exchanges is proved only when no message holds a line feed. Otherwise only the lower bound holds, as in the source's `split('\n\n')`.
- Memory statistics show row ids where the page shows `created_at` values. Both grow with insertion order.

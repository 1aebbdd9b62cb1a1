# Zia tag protocol — a Dafny model

Zia is a Zalo chat bot. Its language model answers in plain text with bracket tags
embedded in it: `[reaction:heart]`, `[sticker:happy]`, `[quote:-1]...[/quote]`,
`[msg]...[/msg]`, `[undo:-1]`, `[card:123]`, `[image:https://...]...[/image]`. The bot
turns each tag into a chat action. This project models that tag protocol and the small
data structures and parsers around it, and proves properties of the model:

- **Streaming parser** (`tagscan.dfy`, `reactions.dfy`, `streamparser.dfy`). While a
  reply streams in, the whole buffer is rescanned after every chunk. Each tag becomes
  a callback call, and per-family sets of dedup keys stop a tag from firing twice.
  Message texts also pass a fuzzy duplicate check. The regular expressions are
  hand-written scanners, one per tag shape, with lazy `*?` read as "up to the first
  closing tag". `ParserState` is a class whose methods run the source's loops over its
  own mutable sets. Each method is proved equal to a pure function of the old state,
  and the dedup and ordering properties are proved about those functions.
- **Attempt loop** (`streamretry.dfy`). `generateContentStream` resets the parser on
  every attempt. Auth and rate-limit errors rotate the key and retry at once.
  Overload errors back off exponentially, up to a limit. Any other error ends the
  loop with `onError`. An abort calls `onComplete` only when partial output exists.
- **Batch parser** (`batchparser.dfy`). `parseAIResponse` turns a complete reply into
  reactions, messages and undo indexes. Leftover plain text comes first, and an empty
  result becomes the default response.
- **Sent-message store** (`messagestore.dfy`). A bounded per-thread FIFO of sent
  messages plus an index by message id, as a class with an invariant.
- **Rate limiter** (`ratelimit.dfy`). A per-thread map of last-call times.
- **HTML reader of the PDF service** (`htmlparse.dfy`, `htmlfacts.dfy`). Entity
  decoding, splitting out tables, table cells, block tags and inline formatting.
- **Markdown reader of the Word tool** (`wordparse.dfy`, `wordfacts.dfy`). Line
  classification, bold and italic runs, and the file name.
- **Background agent** (`agentrunner.dfy`, `agentfacts.dfy`). The start/stop flag, the
  decision map built from the model's `decide` tool calls, the routing of one task by
  its decision, and the bounded tool loop.

`text.dfy` holds the string functions these share. They behave like the JavaScript
built-ins: `trim` with the JavaScript white-space set, `toLowerCase`, `startsWith`,
`split`, `parseInt` with radix 10, and `length` in UTF-16 code units. The two copies of
the emoji table and of `normalizeReaction` (in `geminiStream.ts` and
`config.schema.ts`) are identical, so `Reactions` defines them once for both parsers.

Callbacks are modelled by the list of `Dispatch` records a pass returns, in call
order. A `Wiring` record says which optional callbacks the caller supplied. The model
stream, the key manager, the Groq client, tool execution and the repository of tasks are
parameters: functions or values the caller passes in.

## Model

| member | source | states |
|---|---|---|
| Reactions.Normalize | apps/bot/src/infrastructure/ai/providers/gemini/geminiStream.ts:137-149 | The result is one of the six Zalo reactions. It is present exactly when the lower-cased token is a reaction name or the exact token is a key of the emoji table. A reaction name, in any case, maps to its lower-case self. |
| Reactions.TableInCanonical | apps/bot/src/infrastructure/ai/providers/gemini/geminiStream.ts:87-132 | Every emoji in the table maps to one of the six reactions. |
| Reactions.NormalizeAsWritten | apps/bot/src/infrastructure/ai/providers/gemini/geminiStream.ts:137-149 | The lookup as written, on a plain object. A reaction name in any case is taken lower-cased. Where it finds one of the six reactions it agrees with `Normalize`. It finds something exactly when `Normalize` does or the token is a name every object inherits. |
| Reactions.InheritedKeysAsWritten | apps/bot/src/infrastructure/ai/providers/gemini/geminiStream.ts:144-145 | For every inherited name such as `toString`, the lookup as written succeeds with the inherited member, while the own-key lookup `Normalize` rejects the token. |
| TagScan.ReactionAt | apps/bot/src/infrastructure/ai/providers/gemini/geminiStream.ts:263 | A match is `[reaction:`, an optional `digits:` target, then a non-empty body with no `]`, then `]`. When the opener is there but nothing matches, the body is empty or no `]` follows. |
| TagScan.StickerAt | apps/bot/src/infrastructure/ai/providers/gemini/geminiStream.ts:280 | A match is `[sticker:`, a run of word characters that becomes the keyword, then `]`. |
| TagScan.UndoAt | apps/bot/src/infrastructure/ai/providers/gemini/geminiStream.ts:293 | The body is `all` in any case, or a signed integer optionally followed by `:` and a second signed integer. The captured groups are exactly those parts. |
| TagScan.UndoSingleAt | apps/bot/src/shared/types/config.schema.ts:177 | The batch parser's undo tag: the body is one signed integer. |
| TagScan.QuoteAt | apps/bot/src/infrastructure/ai/providers/gemini/geminiStream.ts:322 | A match is `[quote:N]` with a signed integer N, then the body up to the first `[/quote]`, which does not occur inside the body. |
| TagScan.QuoteTailAt | apps/bot/src/shared/types/config.schema.ts:147 | A quote, then white space, then the text up to the next `[` or the end of input, with no `[` inside it. |
| TagScan.MsgAt | apps/bot/src/infrastructure/ai/providers/gemini/geminiStream.ts:351 | A match is `[msg]`, then the body up to the first `[/msg]`. |
| TagScan.CardAt | apps/bot/src/infrastructure/ai/providers/gemini/geminiStream.ts:374 | A match is `[card]` with no user id, or `[card:digits]` with the digits as the user id. |
| TagScan.ImageAt | apps/bot/src/infrastructure/ai/providers/gemini/geminiStream.ts:384 | A match is `[image:` and a URL starting `http://` or `https://` with no `]`, then `]`, then the caption up to the first `[/image]`. |
| TagScan.ToolAt | apps/bot/src/infrastructure/ai/providers/gemini/geminiStream.ts:159 | A tool tag starts with `[tool:` and ends at a `]`, after an optional body closed by `[/tool]`. |
| TagScan.MatchAt | apps/bot/src/infrastructure/ai/providers/gemini/geminiStream.ts:152-161 | A match of a tag family ends inside the text and yields a tag of that family. |
| TagScan.Scan | apps/bot/src/infrastructure/ai/providers/gemini/geminiStream.ts:263 | A global `matchAll`: matches come in order, do not overlap, and each one starts where the family matches. Between matches no match starts. |
| TagScan.ScanComplete | apps/bot/src/infrastructure/ai/providers/gemini/geminiStream.ts:263 | Every position where the family matches, and that is not inside an earlier match, starts a reported match. |
| TagScan.Matches | apps/bot/src/infrastructure/ai/providers/gemini/geminiStream.ts:263 | Every reported match is a match of the family at its start, and its tag is of that family. |
| TagScan.RemoveIsGaps | apps/bot/src/infrastructure/ai/providers/gemini/geminiStream.ts:163-165 | `replace(pattern, '')` leaves exactly the text between the scanned matches. |
| TagScan.RemoveShorter | apps/bot/src/infrastructure/ai/providers/gemini/geminiStream.ts:163-165 | Removing tags never makes the text longer. |
| TagScan.StripNoMatch | apps/bot/src/infrastructure/ai/providers/gemini/geminiStream.ts:175-177 | Stripping a family from a text where it does not occur leaves the text unchanged. |
| StreamParser.ShouldSendMessage | apps/bot/src/infrastructure/ai/providers/gemini/geminiStream.ts:57-84 | The loop refuses a candidate exactly when, after trimming and lower-casing, some sent text equals it, starts with it, or is a prefix of it longer than four fifths of it (`5*len(sent) > 4*len(new)` in UTF-16 units). |
| StreamParser.SentTextSuppressed | apps/bot/src/infrastructure/ai/providers/gemini/geminiStream.ts:63-66 | Once a text is sent, any candidate equal to it after trimming and lower-casing is refused. |
| StreamParser.ShouldSendAntitone | apps/bot/src/infrastructure/ai/providers/gemini/geminiStream.ts:60-81 | A candidate allowed against a list of sent texts is also allowed against any prefix of that list. More sent texts only refuse more. |
| StreamParser.UndoArgOf | apps/bot/src/infrastructure/ai/providers/gemini/geminiStream.ts:196-214 | The `onUndo` argument as intended: `'all'` exactly for the `all` body, a range exactly when two numbers are given, else one index. |
| StreamParser.UndoArgAsWritten | apps/bot/src/infrastructure/ai/providers/gemini/geminiStream.ts:196-214 | The argument as the code computes it: only the lower-case body `all` gives `'all'`. |
| StreamParser.UndoUpperCaseAllAsWritten | apps/bot/src/infrastructure/ai/providers/gemini/geminiStream.ts:196-214 | `[undo:ALL]` matches the case-insensitive expression, yet the code as written passes `parseInt(undefined)` (NaN) to `onUndo`. |
| StreamParser.UndoArgCorrected | apps/bot/src/infrastructure/ai/providers/gemini/geminiStream.ts:196-214 | The corrected argument is `'all'` exactly when the body is `all` in any case. Otherwise it is the signed index, or the range of the two signed integers. |
| StreamParser.CallFor | apps/bot/src/infrastructure/ai/providers/gemini/geminiStream.ts:263-313 | Stickers, undos, cards and images always give a call. A reaction gives one exactly when its trimmed token normalises. Every call has a key of its family. The undo argument is the corrected one (see Findings): `all` in any case gives `all`. |
| StreamParser.CleanInline | apps/bot/src/infrastructure/ai/providers/gemini/geminiStream.ts:168-177 | `cleanInlineTags`: the reaction, sticker, undo and card tags are removed in that order and the rest is trimmed, so the result is empty or has no white space at either end. `TagScan.RemoveIsGaps` states what each removal keeps, and `TagScan.StripNoMatch` that a body without such tags is only trimmed. |
| StreamParser.PlainText | apps/bot/src/infrastructure/ai/providers/gemini/geminiStream.ts:163-165 | `getPlainText`: every tag family is removed in the order of `TAG_PATTERNS` and the rest is trimmed, so the result is empty or has no white space at either end. `TagScan.RemoveIsGaps` states that each removal keeps exactly the text between the matches, and `TagScan.StripNoMatch` that untagged text is only trimmed. |
| StreamParser.BlockFor | apps/bot/src/infrastructure/ai/providers/gemini/geminiStream.ts:320-360 | A quote or msg body that may be sent is trimmed and non-empty. A quote is skipped exactly when its trimmed body is empty. Only quote blocks carry a quote index. |
| StreamParser.DeliverLogged | apps/bot/src/infrastructure/ai/providers/gemini/geminiStream.ts:336-345 | A block either changes nothing or makes exactly one `onMessage` call. Its key and text are recorded only then. |
| StreamParser.InlineKeepsMessages | apps/bot/src/infrastructure/ai/providers/gemini/geminiStream.ts:186-254 | Nested tags never change the message keys or the sent texts. |
| StreamParser.ReplayDistinct | apps/bot/src/infrastructure/ai/providers/gemini/geminiStream.ts:270-392 | Take any call log accepted by the dedup state. No call's key was recorded before it, every call has its callback wired, and no two calls of one family share a key. Every message passes `shouldSendMessage`, and no message suppresses a later one. |
| StreamParser.ReactionsOnce | apps/bot/src/infrastructure/ai/providers/gemini/geminiStream.ts:263-277 | Across any sequence of rescans from a fresh state, no reaction call is made twice. |
| StreamParser.MessagesNotRepeated | apps/bot/src/infrastructure/ai/providers/gemini/geminiStream.ts:322-371 | Across any sequence of rescans, no message key repeats and no sent message suppresses a later one. |
| StreamParser.RescanDoesNotRepeat | apps/bot/src/infrastructure/ai/providers/gemini/geminiStream.ts:256-393 | Rescanning a longer buffer never repeats a key of a family that the previous rescan dispatched. |
| StreamParser.LoggedGrows | apps/bot/src/infrastructure/ai/providers/gemini/geminiStream.ts:256-393 | Calls made under the dedup discipline never forget a key. Every set only gains keys, and sent texts are only appended. |
| StreamParser.StepsComplete | apps/bot/src/infrastructure/ai/providers/gemini/geminiStream.ts:263-311 | In a pass over tag matches, the tag at any position whose call has its callback present ends up with its key recorded: it is called in the pass unless the key was recorded already. |
| StreamParser.PassComplete | apps/bot/src/infrastructure/ai/providers/gemini/geminiStream.ts:263-311 | The same for any tag found by the pass. |
| StreamParser.InlineComplete | apps/bot/src/infrastructure/ai/providers/gemini/geminiStream.ts:186-254 | Every undo, sticker, reaction or card tag nested in a body whose call has its callback present ends up recorded once the nested passes are done. |
| StreamParser.HeadComplete | apps/bot/src/infrastructure/ai/providers/gemini/geminiStream.ts:262-311 | Every top-level reaction, sticker or undo tag whose call has its callback present ends up recorded after the first three passes. |
| StreamParser.ChunkComplete | apps/bot/src/infrastructure/ai/providers/gemini/geminiStream.ts:256-393 | After one rescan, every top-level reaction, sticker, undo, card or image tag whose call has its callback present has its key recorded. It was called in this rescan unless the key was recorded already. |
| StreamParser.HeldBackStays | apps/bot/src/infrastructure/ai/providers/gemini/geminiStream.ts:57-84 | A text that `shouldSendMessage` holds back stays held back as more texts are sent. |
| StreamParser.SettledGrows | apps/bot/src/infrastructure/ai/providers/gemini/geminiStream.ts:329-371 | A settled block stays settled as the dedup state grows. A block is settled when its key is recorded, its body is empty once nested tags are removed, or a sent text holds it back. |
| StreamParser.DeliverSettles | apps/bot/src/infrastructure/ai/providers/gemini/geminiStream.ts:339-345 | With `onMessage` present, delivering a block settles it. |
| StreamParser.SendBlockComplete | apps/bot/src/infrastructure/ai/providers/gemini/geminiStream.ts:335-346 | With `onMessage` present, a quote or msg block is settled once handled, whether it was skipped for a recorded key or not. |
| StreamParser.SendBlockInline | apps/bot/src/infrastructure/ai/providers/gemini/geminiStream.ts:335-338 | A block reached with its key unrecorded runs its nested tags: each one whose call has its callback present ends up recorded. |
| StreamParser.BlockStepsComplete | apps/bot/src/infrastructure/ai/providers/gemini/geminiStream.ts:324-371 | In a pass over quote or msg blocks with `onMessage` present, every block ends up settled. |
| StreamParser.BlockStepsInline | apps/bot/src/infrastructure/ai/providers/gemini/geminiStream.ts:324-371 | In a pass over blocks, each nested tag of a block whose call has its callback present ends up recorded. The exception is a block whose key was already recorded when the pass reached it, whose nested tags are then skipped. |
| StreamParser.ChunkSettles | apps/bot/src/infrastructure/ai/providers/gemini/geminiStream.ts:318-371 | After one rescan with `onMessage` present, every top-level quote block and every msg block is settled. It was sent in this rescan or before, it is empty once nested tags are removed, or a sent text holds it back. |
| StreamParser.InlineOrder | apps/bot/src/infrastructure/ai/providers/gemini/geminiStream.ts:186-254 | Nested tags fire undo first, then stickers, then reactions, then cards. |
| StreamParser.SendBlockOrder | apps/bot/src/infrastructure/ai/providers/gemini/geminiStream.ts:336-345 | All calls for nested tags come before the enclosing message. |
| StreamParser.ChunkHeadFirst | apps/bot/src/infrastructure/ai/providers/gemini/geminiStream.ts:262-313 | A rescan first makes only reaction, sticker and undo calls, in that order, before any quote, msg, card or image call. |
| StreamParser.ParserState.constructor | apps/bot/src/infrastructure/ai/providers/gemini/geminiStream.ts:405-414 | A new state has an empty buffer, empty sets and no sent texts. |
| StreamParser.ParserState.Reset | apps/bot/src/infrastructure/ai/providers/gemini/geminiStream.ts:455-462 | The per-attempt reset empties the buffer, the six sets and the sent texts. |
| StreamParser.ParserState.Remember | apps/bot/src/infrastructure/ai/providers/gemini/geminiStream.ts:270-276 | A call adds its key to its family's set, and a message also appends its text. Nothing else changes. |
| StreamParser.ParserState.HandleTag | apps/bot/src/infrastructure/ai/providers/gemini/geminiStream.ts:263-277 | One turn of a tag loop updates the sets and calls as the pure step says. |
| StreamParser.ParserState.HandleAll | apps/bot/src/infrastructure/ai/providers/gemini/geminiStream.ts:280-287 | A whole tag loop updates the sets and calls as the fold of the pure step says. |
| StreamParser.ParserState.ProcessInlineTags | apps/bot/src/infrastructure/ai/providers/gemini/geminiStream.ts:186-254 | The nested-tag pass leaves the buffer alone and updates the sets and calls as the pure `Inline` says. |
| StreamParser.ParserState.HandleBlock | apps/bot/src/infrastructure/ai/providers/gemini/geminiStream.ts:336-345 | One quote or msg body updates the sets and calls as `SendBlock` says. |
| StreamParser.ParserState.HandleBlockTag | apps/bot/src/infrastructure/ai/providers/gemini/geminiStream.ts:324-347 | One turn of the quote or msg loop updates the sets and calls as `BlockStep` says. |
| StreamParser.ParserState.HandleAllBlocks | apps/bot/src/infrastructure/ai/providers/gemini/geminiStream.ts:322-371 | A whole quote or msg loop updates the sets and calls as `BlockSteps` says. |
| StreamParser.ParserState.ProcessStreamChunk | apps/bot/src/infrastructure/ai/providers/gemini/geminiStream.ts:256-393 | One rescan leaves the buffer alone and updates the sets and calls as the pure `Chunk` says. The properties above are proved about `Chunk`. Its undo calls take the corrected argument (see Findings). |
| StreamRetry.FeedIsRescans | apps/bot/src/infrastructure/ai/providers/gemini/geminiStream.ts:478-492 | After the chunks of an attempt, the buffer is their concatenation. The calls are those of rescanning each growing buffer in turn from a fresh state. |
| StreamRetry.AttemptReactionsOnce | apps/bot/src/infrastructure/ai/providers/gemini/geminiStream.ts:478-492 | Within one attempt, no reaction call is made twice. |
| StreamRetry.FeedChunk | apps/bot/src/infrastructure/ai/providers/gemini/geminiStream.ts:485-491 | A chunk is skipped when empty. Otherwise it is appended and the buffer rescanned, and partial output is recorded once a message or reaction was sent. |
| StreamRetry.StreamAttempt | apps/bot/src/infrastructure/ai/providers/gemini/geminiStream.ts:478-492 | The chunk loop of an attempt leaves the state that feeding the chunks in order describes. |
| StreamRetry.AttemptView | apps/bot/src/infrastructure/ai/providers/gemini/geminiStream.ts:455-513 | An attempt resets the state, feeds its chunks, and yields its buffer, calls, partial flag and closing callbacks. |
| StreamRetry.FinishShape | apps/bot/src/infrastructure/ai/providers/gemini/geminiStream.ts:501-513 | A completed stream ends with at most the plain-text message, then `onComplete` last, and never `onError`. |
| StreamRetry.ConcludeEndsOnce | apps/bot/src/infrastructure/ai/providers/gemini/geminiStream.ts:515-585 | The attempt that ends the loop makes at most one terminal callback, last. `onError` fires exactly on failure with `onError` wired, and `onComplete` never on failure. |
| StreamRetry.RunEndsOnce | apps/bot/src/infrastructure/ai/providers/gemini/geminiStream.ts:453-585 | The same for the loop from any attempt on: earlier events are kept as they are, and at most one terminal callback comes last. |
| StreamRetry.RunDelays | apps/bot/src/infrastructure/ai/providers/gemini/geminiStream.ts:564-572 | From any point of the loop, the i-th back-off is `baseDelayMs * 2^i`, and there are at most `maxRetries` of them. |
| StreamRetry.GenerateDelays | apps/bot/src/infrastructure/ai/providers/gemini/geminiStream.ts:564-572 | Over a whole call, the i-th back-off is `baseDelayMs * 2^i`, and there are at most `maxRetries` of them. |
| StreamRetry.GenerateEndsOnce | apps/bot/src/infrastructure/ai/providers/gemini/geminiStream.ts:398-586 | A whole call makes at most one terminal callback, last. `onError` fires exactly when the loop fails and `onError` is wired, and `onComplete` never on failure. |
| StreamRetry.GenerateContentStream | apps/bot/src/infrastructure/ai/providers/gemini/geminiStream.ts:398-586 | The loop's result, callbacks, delays and exit agree with `Generate`. That covers immediate retry after a successful rotation, back-off while overload retries remain, and an end on anything else. |
| StreamRetry.RetryLoop | apps/bot/src/infrastructure/ai/providers/gemini/geminiStream.ts:449-585 | `views` is what each attempt amounts to. From attempt 0 with no rotations, retries, events or delays, the loop ends with what `Run` gives. After a successful key rotation it calls again at once; on an overload with retries left it waits `baseDelayMs * 2^o`; anything else ends it. |
| StreamRetry.Settle | apps/bot/src/infrastructure/ai/providers/gemini/geminiStream.ts:512-585 | The return branches of the loop return what `Conclude` says for the attempt that ends it. `Conclude` is the specification, and its properties are proved by `ConcludeEndsOnce` and `ConcludeExits`. |
| StreamRetry.StopOf | apps/bot/src/infrastructure/ai/providers/gemini/geminiStream.ts:453-585 | The attempt at which the loop stops. Every earlier attempt threw an auth, rate-limit or overload error without an abort. The stopping attempt is neither rotated nor backed off. The attempts passed over number the rotations plus the overload retries, which stay within the refused rotation request and `maxRetries`. The overload retries are exactly the passed-over attempts that threw an overload error. |
| StreamRetry.DelaysFrom | apps/bot/src/infrastructure/ai/providers/gemini/geminiStream.ts:564-572 | The back-offs of overload retries `o` to `o2 - 1`: one per retry, the i-th being `baseDelayMs * 2^(o + i)`. |
| StreamRetry.RunConcluding | apps/bot/src/infrastructure/ai/providers/gemini/geminiStream.ts:453-585 | From any attempt, the loop returns what its stopping attempt concludes. Before that come the calls of every attempt up to and including the stopping one, and the back-offs of the overload retries taken on the way. |
| StreamRetry.RotationConcludes | apps/bot/src/infrastructure/ai/providers/gemini/geminiStream.ts:526-557 | A rotation after an auth or rate-limit error keeps the statement of `RunConcluding`: the next attempt starts at once, with no delay. |
| StreamRetry.BackOffConcludes | apps/bot/src/infrastructure/ai/providers/gemini/geminiStream.ts:560-570 | An overload back-off keeps the statement of `RunConcluding`, adding the delay of that retry. |
| StreamRetry.ConcludeExits | apps/bot/src/infrastructure/ai/providers/gemini/geminiStream.ts:499-585 | The attempt that ends the loop returns its buffer, plus the unflushed chunk when the abort came inside one. It returns normally exactly when the stream completed, as aborted exactly when cancelled, and as failed exactly on an error that was not retried. A cancelled attempt never calls `onError`, and calls `onComplete` exactly when partial output counts and `onComplete` is present. A failed one never calls `onComplete`, and calls `onError` exactly when present. |
| StreamRetry.LoopConcludes | apps/bot/src/infrastructure/ai/providers/gemini/geminiStream.ts:449-585 | The loop from attempt 0, which is what `RetryLoop` runs. Every attempt before the stopping one was retried, and its calls come first, in order. The delays are the back-offs of the overload retries taken, one per earlier attempt that threw an overload error, so a rotation adds none. The result is the stopping attempt's buffer. An overload that ends the loop fails it after all `maxRetries` back-offs. |
| StreamRetry.LoopCancelled | apps/bot/src/infrastructure/ai/providers/gemini/geminiStream.ts:515-522 | A loop that ends by cancellation never calls `onError`. It calls `onComplete` exactly when the stopping attempt recorded partial output and `onComplete` is present. |
| BatchParser.ParseAIResponse | apps/bot/src/shared/types/config.schema.ts:97-228 | The step-by-step parse equals the specification `Parse`. The properties below are proved about `Parse`. |
| BatchParser.CollectTags | apps/bot/src/shared/types/config.schema.ts:115-191 | The match loops collect the reaction entries, the tag messages and the undo indexes in source order. |
| BatchParser.StripTags | apps/bot/src/shared/types/config.schema.ts:194-201 | The replace chain yields the plain text. |
| BatchParser.PlainText | apps/bot/src/shared/types/config.schema.ts:194-201 | The plain text is trimmed: empty, or with no white space at either end. |
| BatchParser.Assemble | apps/bot/src/shared/types/config.schema.ts:204-216 | A response always has a message or a reaction. |
| BatchParser.EmptyGivesDefault | apps/bot/src/shared/types/config.schema.ts:213-216 | With no plain text, no tag message and no reaction, the result is the default response. Otherwise the reactions and undo indexes are the collected ones, and there is one message per tag message plus one for non-empty plain text. |
| BatchParser.PlainTextFirst | apps/bot/src/shared/types/config.schema.ts:203-210 | Non-empty plain text is put in front: the messages are one text message holding it, then the tag messages in their order. |
| BatchParser.ReactionEntryOf | apps/bot/src/shared/types/config.schema.ts:115-132 | A tag gives at most one entry. It gives one exactly when it is a reaction whose trimmed token normalises, and the entry is `index:reaction` or `reaction`. |
| BatchParser.ReactionsWellFormed | apps/bot/src/shared/types/config.schema.ts:115-132 | Every reaction entry is a canonical reaction, or digits, `:` and a canonical reaction. |
| BatchParser.ReactionPerTag | apps/bot/tests/integration/infrastructure/geminiProvider.test.ts:128-135 | There is one entry per recognised reaction tag, in order and without deduplication. |
| BatchParser.StickerMessages | apps/bot/src/shared/types/config.schema.ts:136-143 | Each `[sticker:k]` gives one message with empty text, sticker `k` and quote index -1. |
| BatchParser.MsgMessages | apps/bot/src/shared/types/config.schema.ts:167-174 | Each `[msg]` block gives one message with its trimmed body. |
| BatchParser.UndoIndexes | apps/bot/src/shared/types/config.schema.ts:177-180 | Each single-integer undo tag gives its signed value, in source order. |
| BatchParser.CardMessages | apps/bot/src/shared/types/config.schema.ts:183-191 | Each card tag gives one message whose card is the user id, or `''` without one. |
| BatchParser.QuoteTextJoins | apps/bot/src/shared/types/config.schema.ts:151-155 | A quote's text is the trimmed body and the trimmed following text joined by one space, or whichever of them is non-empty. |
| BatchParser.QuoteMessagesForm | apps/bot/src/shared/types/config.schema.ts:147-164 | Every quote message has non-empty trimmed text, no sticker and no card. An empty joined text gives no message. |
| BatchParser.QuoteIndex | apps/bot/src/shared/types/config.schema.ts:147-164 | A quote message's index is the tag's signed integer. |
| MessageStore.HasIdIsTrimmed | apps/bot/src/shared/utils/message/messageStore.ts:58 | A message id is indexed exactly when it is non-empty after trimming. |
| MessageStore.Lookup | apps/bot/src/shared/utils/message/messageStore.ts:80-97 | `getSentMessage` finds a message exactly when the thread has a list and `-len <= index < len`. |
| MessageStore.FirstWithId | apps/bot/src/shared/utils/message/messageStore.ts:134 | `findIndex`: the first position holding the id, or none when no position holds it. |
| MessageStore.FindIndex | apps/bot/src/shared/utils/message/messageStore.ts:134 | The search loop returns the first position holding the id, or -1. |
| MessageStore.LastRecent | apps/bot/src/shared/utils/message/messageStore.ts:245-250 | The newest position with a timestamp after the cutoff, or none when no entry is that recent. |
| MessageStore.MessageStore.constructor | apps/bot/src/shared/utils/message/messageStore.ts:19-22 | The store starts with no threads and an empty index, and satisfies its invariant. |
| MessageStore.MessageStore.SaveSentMessage | apps/bot/src/shared/utils/message/messageStore.ts:27-75 | The save keeps the invariant. It evicts the oldest entry and its index entry when the list is full, appends the message, and indexes a non-blank id. The returned position and -1 both retrieve the message. |
| MessageStore.MessageStore.RemoveSentMessage | apps/bot/src/shared/utils/message/messageStore.ts:127-144 | The removal keeps the invariant. It drops the index entry and the first cached entry with that id. |
| MessageStore.MessageStore.CleanupOldMessages | apps/bot/src/shared/utils/message/messageStore.ts:151-178 | The clean-up keeps the invariant. It removes every entry at least one hour old from the lists and the index, and drops emptied threads. |
| MessageStore.MessageStore.CleanThreads | apps/bot/src/shared/utils/message/messageStore.ts:156-173 | The thread loop leaves each thread's recent entries, drops emptied threads, and unindexes every stale id. |
| MessageStore.MessageStore.DropStale | apps/bot/src/shared/utils/message/messageStore.ts:158-165 | The filter keeps the recent entries in order and unindexes the stale ones. |
| MessageStore.MessageStore.GetLastBotMessageInThread | apps/bot/src/shared/utils/message/messageStore.ts:237-251 | The result is the newest cached entry of the thread that is newer than `now - window`. It is absent only when there is no such entry. The backward scan returns the entry at the position `LastRecent` picks. |
| MessageStore.SaveKeepsValid | apps/bot/src/shared/utils/message/messageStore.ts:42-60 | A save preserves the invariant: bounded lists, messages in their own thread, and every index entry pointing at a cached message with a non-blank id. |
| MessageStore.SavedIsRetrievable | apps/bot/src/shared/utils/message/messageStore.ts:55-96 | After a save, the returned position and -1 both look up the saved message. |
| MessageStore.NegativeIndex | apps/bot/src/shared/utils/message/messageStore.ts:87-94 | Index `i - len` finds the same message as `i`. |
| MessageStore.SaveBounded | apps/bot/src/shared/utils/message/messageStore.ts:47-55 | With a limit of at least one, a list never exceeds it. A full list loses exactly its oldest entry. |
| MessageStore.RemoveFirstExact | apps/bot/src/shared/utils/message/messageStore.ts:132-138 | Removal drops exactly one entry carrying the id, if any, and keeps the others in order. |
| MessageStore.RemoveFirstMembers | apps/bot/src/shared/utils/message/messageStore.ts:132-138 | No entry is added, and every entry with another id survives. |
| MessageStore.RemoveKeepsValid | apps/bot/src/shared/utils/message/messageStore.ts:127-138 | A removal preserves the invariant. |
| MessageStore.RecentMembers | apps/bot/src/shared/utils/message/messageStore.ts:158-165 | The filter keeps exactly the entries newer than the cutoff. |
| MessageStore.CleanupKeepsValid | apps/bot/src/shared/utils/message/messageStore.ts:151-173 | The clean-up preserves the invariant. |
| MessageStore.CleanupKeepsRecent | apps/bot/src/shared/utils/message/messageStore.ts:151-173 | After clean-up, no thread is empty and every entry is recent. Every recent entry survives, and each list is its old list filtered. |
| RateLimit.WaitTime | src/utils/rateLimit.ts:10-27 | The wait is zero exactly when `now - last >= rateLimitMs`, with a thread never seen counting as `last = 0`. Otherwise it is `rateLimitMs - (now - last)`. |
| RateLimit.RateLimiter.constructor | src/utils/rateLimit.ts:4 | The limiter starts with no recorded calls. |
| RateLimit.RateLimiter.CheckRateLimit | src/utils/rateLimit.ts:10-27 | The method returns the wait time. It records `now` for the thread only on a pass. |
| RateLimit.RateLimiter.MarkApiCall | src/utils/rateLimit.ts:32-34 | The thread's time becomes `now`, and nothing else changes. |
| RateLimit.CheckTouchesOneThread | src/utils/rateLimit.ts:16-24 | A check changes only the queried thread. A wait leaves the map unchanged, and a pass records `now`. |
| RateLimit.PassThenWait | src/utils/rateLimit.ts:13-24 | Right after a pass, a call `d` ms later must wait `rateLimitMs - d`. |
| RateLimit.WaitSuffices | src/utils/rateLimit.ts:13-16 | Waiting the returned time is enough to pass. |
| RateLimit.WaitIsLeast | src/utils/rateLimit.ts:13-16 | Waiting less leaves exactly the remainder to wait, so the returned time is the least sufficient wait. |
| HtmlParse.MatchAt | src/modules/system/services/docxToPdfService.ts:183-251 | A match of any of the service's expressions ends inside the text. A block match has one of the block tag names. |
| HtmlParse.Exec | src/modules/system/services/docxToPdfService.ts:189 | `exec` from `lastIndex`: a found match starts at or after it and is a match at that position. |
| HtmlParse.ExecLeftmost | src/modules/system/services/docxToPdfService.ts:189 | No match fits before the one `exec` finds. When none is found, none fits anywhere after the start. |
| HtmlParse.ExecAll | src/modules/system/services/docxToPdfService.ts:256-304 | An `exec` loop collects exactly what the successive matches give. |
| HtmlParse.SplitTables | src/modules/system/services/docxToPdfService.ts:183-198 | The table loop splits the input into the parts `PartsFrom` describes. |
| HtmlParse.TableRows | src/modules/system/services/docxToPdfService.ts:221-236 | The row loop collects one row per `<tr>` that has cells. |
| HtmlParse.AddRow | src/modules/system/services/docxToPdfService.ts:222-235 | One row's cell loop appends the row when it has cells. |
| HtmlParse.ParseTable | src/modules/system/services/docxToPdfService.ts:215-241 | `parseTable` gives the table of those rows, or none when no row remains. |
| HtmlParse.ParseHtmlContent | src/modules/system/services/docxToPdfService.ts:246-307 | The block loop gives the elements of its blocks in order. |
| HtmlParse.PartsToElements | src/modules/system/services/docxToPdfService.ts:200-207 | The part loop gives, in order, the table of each table part that has rows and the block elements of each other part. |
| HtmlParse.ParseHtmlToElements | src/modules/system/services/docxToPdfService.ts:176-210 | Comments are removed and the input is split into table and non-table parts. Each part gives its elements in order. |
| HtmlParse.DecodeHtmlEntities | src/modules/system/services/docxToPdfService.ts:160-171 | `decodeHtmlEntities`: the seven named entities in their fixed order, then decimal and hexadecimal references. Its properties are `HtmlFacts.NoAmpUnchanged` (text without `&` is unchanged) and `HtmlFacts.DecodeAmpLt` (the order turns `&amp;lt;` into `<`). |
| HtmlFacts.DecodeAmpLt | src/modules/system/services/docxToPdfService.ts:160-171 | The named entities are replaced in a fixed order, so `&amp;lt;` decodes to `<`. |
| HtmlFacts.NoAmpUnchanged | src/modules/system/services/docxToPdfService.ts:160-171 | Text without `&` is unchanged by decoding. |
| HtmlFacts.StripTagsTagFree | src/modules/system/services/docxToPdfService.ts:328 | After `replace(/<[^>]+>/g, '')` no `<...>` tag remains. |
| HtmlFacts.EscapedTagSurvives | src/modules/system/services/docxToPdfService.ts:328 | Decoding runs after stripping, so `&lt;b&gt;` yields the text `<b>`, which holds a tag. |
| HtmlParse.InlineFormatting | src/modules/system/services/docxToPdfService.ts:317-331 | `parseInlineFormatting`: bold, italic and underline come from `<strong`/`<b`, `<em`/`<i` and `<u` openings, and the text is the tag-stripped, then decoded, HTML. `HtmlFacts.StripTagsTagFree` states that stripping leaves no tag, and `HtmlFacts.EscapedTagSurvives` that decoding afterwards can bring one back. |
| HtmlFacts.PartsCover | src/modules/system/services/docxToPdfService.ts:180-198 | The parts concatenate back to the comment-free input, in order, and no two non-table parts are adjacent. |
| HtmlFacts.RowsNonempty | src/modules/system/services/docxToPdfService.ts:233-235 | Every collected row has a cell, and there are no more rows than `<tr>` matches. |
| HtmlFacts.TableRowsHaveCells | src/modules/system/services/docxToPdfService.ts:233-240 | A table element has at least one row, and every row has a cell. |
| HtmlFacts.BlankCell | src/modules/system/services/docxToPdfService.ts:229-230 | A cell whose tag-free text is blank gives the empty string. |
| HtmlFacts.TextElementKinds | src/modules/system/services/docxToPdfService.ts:292-300 | Non-blank text of `hN` gives a bold heading of level N. Text of `li` gives a list item and text of `p` a paragraph. Blank text gives nothing. |
| HtmlFacts.BlockKinds | src/modules/system/services/docxToPdfService.ts:262-300 | `hr` gives a rule and `br` a break, and only they do. A block gives at most two elements. Headings are bold with level 1-6 from the tag digit, list items come from `li`, and paragraphs from `p`. |
| HtmlFacts.BlockContents | src/modules/system/services/docxToPdfService.ts:274-299 | Images have a non-empty source. Text elements have trimmed, non-empty content. |
| HtmlFacts.BlankBlockKeepsImage | src/modules/system/services/docxToPdfService.ts:287-292 | A block with blank text gives no text element, only its inner image if it has one. |
| HtmlFacts.TextBlockKeepsText | src/modules/system/services/docxToPdfService.ts:292-299 | A block with non-blank text ends with a text element holding the trimmed text. |
| HtmlFacts.ContentElementsWellFormed | src/modules/system/services/docxToPdfService.ts:246-307 | Over a whole fragment, headings are bold with level 1-6, text elements are trimmed and non-empty, and images have a source. |
| WordDoc.LazyClose | src/modules/system/tools/createWordDocument.ts:97 | A lazy `(.+?)` closes at the first marker with no line terminator before it. |
| WordDoc.NextMatch | src/modules/system/tools/createWordDocument.ts:100 | The next match starts at or after the search position and is a run there. |
| WordDoc.ParseInlineFormatting | src/modules/system/tools/createWordDocument.ts:94-117 | The `exec` loop gives the runs of `InlineRuns`: the matches in order, or one plain run of the whole text when there are none. |
| WordDoc.ParseLine | src/modules/system/tools/createWordDocument.ts:22-86 | One line's branch chain gives `LineParagraph`. |
| WordDoc.ParseContentToParagraphs | src/modules/system/tools/createWordDocument.ts:18-89 | The line loop gives the paragraphs of `ContentParagraphs`. |
| WordDoc.DocxName | src/modules/system/tools/createWordDocument.ts:216 | The file name ends in `.docx` and starts with the given name. |
| WordFacts.ParagraphsOfLines | src/modules/system/tools/createWordDocument.ts:22-86 | There is one paragraph per line, the k-th from the k-th line. |
| WordFacts.OneParagraphPerLine | src/modules/system/tools/createWordDocument.ts:19-88 | The number of paragraphs is the number of `\n`-separated lines, one more than the number of `\n`. |
| WordFacts.PrefixesExclusive | src/modules/system/tools/createWordDocument.ts:31-67 | The heading, bullet and numbered prefixes exclude one another, so the test order decides nothing. |
| WordFacts.LineKind | src/modules/system/tools/createWordDocument.ts:23-84 | A line is blank exactly when it is all white space, a level-N heading exactly when it starts with N `#` and a space, a bullet exactly with `- ` or `* `, and numbered exactly with `digits.` and white space. Otherwise it is normal. |
| WordFacts.HeadingText | src/modules/system/tools/createWordDocument.ts:31-54 | A heading is one bold run, and the trimmed line is the prefix followed by that run's text. |
| WordFacts.NumberedText | src/modules/system/tools/createWordDocument.ts:67-76 | A numbered item's runs are those of the text after `digits.` and one white-space character. |
| WordFacts.EnclosedSpells | src/modules/system/tools/createWordDocument.ts:97 | An enclosed match spells the marker, the content, and the marker again. |
| WordFacts.RunAtSpells | src/modules/system/tools/createWordDocument.ts:97-113 | Every run, with its markers put back, is exactly the text it matched. |
| WordFacts.PlainAt | src/modules/system/tools/createWordDocument.ts:110-112 | At a character other than `*`, the match is the plain run up to the next `*`. |
| WordFacts.CoveredRoundTrip | src/modules/system/tools/createWordDocument.ts:97-116 | When no character is skipped, rendering the runs with their markers gives back the text. |
| WordFacts.OnlyStarsSkipped | src/modules/system/tools/createWordDocument.ts:97-114 | The only characters the loop skips are `*` where no run starts. |
| WordFacts.LoneStarDropped | src/modules/system/tools/createWordDocument.ts:97-116 | A lone `*` is dropped: `a * b` gives the runs `a ` and ` b`. |
| WordFacts.NoStarOnePlainRun | src/modules/system/tools/createWordDocument.ts:110-116 | Text without `*` is one plain run. |
| WordFacts.BoldItalicRun | src/modules/system/tools/createWordDocument.ts:101-103 | `***x***` is one bold italic run of `x`. |
| WordFacts.BoldRun | src/modules/system/tools/createWordDocument.ts:104-106 | `**x**` is one bold run of `x`. |
| WordFacts.ItalicRun | src/modules/system/tools/createWordDocument.ts:107-109 | `*x*` is one italic run of `x`. |
| WordFacts.DocxNameIdempotent | src/modules/system/tools/createWordDocument.ts:216 | Normalising twice equals normalising once. A `.docx` name is kept, and any other name gets `.docx` appended. |
| AgentRunner.Agent.constructor | apps/bot/src/modules/background-agent/agent.runner.ts:30-32 | The agent starts stopped, with no API handle. |
| AgentRunner.Agent.Start | apps/bot/src/modules/background-agent/agent.runner.ts:63-79 | Starting a running agent changes nothing. Otherwise it stores the API handle, sets the running flag, starts polling and runs one cycle. |
| AgentRunner.Agent.Stop | apps/bot/src/modules/background-agent/agent.runner.ts:84-95 | Stopping a stopped agent changes nothing. Otherwise it clears the flag and the polling. |
| AgentRunner.Agent.IsAgentRunning | apps/bot/src/modules/background-agent/agent.runner.ts:485-487 | The agent reports running exactly while it is polling. |
| AgentRunner.Agent.CycleProceeds | apps/bot/src/modules/background-agent/agent.runner.ts:100-101 | A cycle does work only while the agent is running. |
| AgentRunner.Adjustments | apps/bot/src/modules/background-agent/agent.runner.ts:458-467 | The adjusted payload holds exactly the non-empty `message`, `resolvedThreadId` and `resolvedUserId` parameters. It is absent when all three are empty. |
| AgentRunner.DecideCalls | apps/bot/src/modules/background-agent/agent.runner.ts:451 | Only `decide` calls are kept. |
| AgentRunner.ParseBatchDecisions | apps/bot/src/modules/background-agent/agent.runner.ts:440-480 | The two loops build the decision map `BatchDecisions`. |
| AgentRunner.Merge | apps/bot/src/modules/background-agent/agent.runner.ts:243-246 | `{ ...payload, ...adjusted }`: the keys of both, with the adjusted value winning. |
| AgentRunner.ProcessTaskWithDecision | apps/bot/src/modules/background-agent/agent.runner.ts:219-262 | The calls to the repository and the executor are those of `TaskEffects`. |
| AgentRunner.AllExecute | apps/bot/src/modules/background-agent/agent.runner.ts:199-201 | Exactly the given task ids are mapped, each to `execute` with the given reason. |
| AgentRunner.BatchPlan | apps/bot/src/modules/background-agent/agent.runner.ts:195-201 | The decisions `processTasksInParallel` works with. When Groq is disabled, or its batch call throws (lines 430-434), exactly the batch ids are mapped, each to `execute` with no adjusted payload. `AgentFacts.PlanCoversTasks` proves every id is covered in every case, and `AgentFacts.FallbackExecutesAll` that the fallback runs every task with its own payload. |
| AgentRunner.DecisionFor | apps/bot/src/modules/background-agent/agent.runner.ts:205-211 | A task takes its own decision when the map has one, and otherwise executes with no adjusted payload (`No decision`). |
| AgentRunner.External | apps/bot/src/modules/background-agent/agent.runner.ts:282-286 | The non-`decide` calls, in order. There are none exactly when every call is `decide`. |
| AgentRunner.ResultLines | apps/bot/src/modules/background-agent/agent.runner.ts:293-299 | One result line per executed tool, in order. |
| AgentRunner.ExecuteGroqTools | apps/bot/src/modules/background-agent/agent.runner.ts:272-305 | `hasTools` holds exactly when the response has a tool call other than `decide`. The results are the joined result lines. |
| AgentRunner.CallGroqWithTools | apps/bot/src/modules/background-agent/agent.runner.ts:310-342 | The loop returns the final response of the conversation `Converse` describes. |
| AgentFacts.DecisionDefaults | apps/bot/src/modules/background-agent/agent.runner.ts:458-467 | A missing action is `execute` and a missing reason is `No reason`. There is no adjusted payload exactly when the three adjustable parameters are empty. |
| AgentFacts.NonNumericTaskId | apps/bot/src/modules/background-agent/agent.runner.ts:453-454 | For every string, `parseInt` gives NaN exactly when no digit follows the leading white space and one optional sign. |
| AgentFacts.NaNTaskIdIgnored | apps/bot/src/modules/background-agent/agent.runner.ts:450-454 | A decide call whose task id has no digit after its white space and sign changes no decision. |
| AgentFacts.DecideCallsRecorded | apps/bot/src/modules/background-agent/agent.runner.ts:451-469 | Filtering out non-`decide` calls first changes no decision. |
| AgentFacts.RecordByIsLast | apps/bot/src/modules/background-agent/agent.runner.ts:453-469 | An id has a recorded decision exactly when some call names it. The decision is that of the last such call. |
| AgentFacts.FallbackFills | apps/bot/src/modules/background-agent/agent.runner.ts:472-476 | The fallback keeps every recorded decision and gives every other task `execute` / `No decision from Groq`. |
| AgentFacts.BatchDecisionsSpec | apps/bot/src/modules/background-agent/agent.runner.ts:440-480 | The map holds every task id and every id some numeric `decide` call names. The last such call decides, and tasks without a call get the fallback. |
| AgentFacts.LaterCallWins | apps/bot/src/modules/background-agent/agent.runner.ts:464-468 | A later `decide` call for an id overrides earlier ones. |
| AgentFacts.IgnoredCall | apps/bot/src/modules/background-agent/agent.runner.ts:451-455 | A call that is not `decide`, or whose `task_id` is not numeric, changes nothing. |
| AgentFacts.TaskEffectsShape | apps/bot/src/modules/background-agent/agent.runner.ts:219-262 | A task is first marked processing and ends with exactly one completed or failed mark. It is executed exactly when the action is neither `skip` nor `delay`. |
| AgentFacts.SkipAndDelay | apps/bot/src/modules/background-agent/agent.runner.ts:229-240 | `skip` completes a task as skipped with the reason. `delay` fails it with `Delayed: reason`, retry count 0 and `maxRetries + 1`. |
| AgentFacts.ExecuteMerges | apps/bot/src/modules/background-agent/agent.runner.ts:243-262 | On execute, the payload is the merge. A task completes exactly when the executor succeeds, and a failure keeps the retry counters and has a non-empty error. |
| AgentFacts.ExecuteUnadjusted | apps/bot/src/modules/background-agent/agent.runner.ts:243-249 | Without adjustments a task runs with its own payload. |
| AgentFacts.FallbackExecutesTask | apps/bot/src/modules/background-agent/agent.runner.ts:195-211 | With Groq disabled, or when its call throws, a task executes with its own payload. |
| AgentFacts.FallbackExecutesAll | apps/bot/src/modules/background-agent/agent.runner.ts:195-213 | With Groq disabled, or when its call throws, every task of the batch executes with its own payload. |
| AgentFacts.PlanCoversTasks | apps/bot/src/modules/background-agent/agent.runner.ts:195-213 | Whatever Groq does, every task gets its own decision. |
| AgentFacts.ConverseCalls | apps/bot/src/modules/background-agent/agent.runner.ts:319-329 | The loop calls the model at most `maxToolIterations` times. Stopping early means the last response had no tools. |
| AgentFacts.ConverseMessages | apps/bot/src/modules/background-agent/agent.runner.ts:319-339 | The conversation only grows, by two messages per continuing turn. Each added assistant message had tools, and the final answer is the last response. |
| AgentFacts.ToolStepHasTools | apps/bot/src/modules/background-agent/agent.runner.ts:276-286 | The loop continues exactly when the response has an external tool call. |
| AgentFacts.ToolLoopBound | apps/bot/src/modules/background-agent/agent.runner.ts:318-321 | A limit of 0 or less means no call and `''`. Otherwise there are between 1 and the limit calls. |
| AgentFacts.ToolLoopStops | apps/bot/src/modules/background-agent/agent.runner.ts:319-341 | The loop stops before the limit only at a response without tools, which is the model's answer to the final conversation. Two messages are added per turn that had tools. |

## Left out

- `fixStuckTags` (`shared/utils/tagFixer.js`) is not part of this model. Both parsers apply it first, and the model reads it as the identity.
- Transport and token counting (`getChatSession`, `sendMessageStream`, `buildMessageParts`, `checkInputTokens`, chat-session deletion) are out. The `n`-th attempt is given as its chunks and its ending, and a refused token check as an optional message.
- The error classifiers and the key manager are sources not part of this model. An error is one of four kinds, and the key manager is a function answering the `r`-th rotation request.
- StreamRetry.GenerateContentStream: it requires that some rotation request is refused (`Refusal` picks one). A key manager that rotates forever, which would loop forever, is not modelled.
- A callback that throws or rejects is not modelled; every callback returns.
- The abort check inside `processStreamChunk` (line 257) is the `AbortInChunk` ending. The chunk that is rescanned when the abort is seen makes no calls in the model.
- `sleep`, logging and `console` are out; the model records only the delay values.
- `toLowerCase` is ASCII lower-casing, and emoji are opaque strings compared exactly. Strings are sequences of code points. Only the ratio in `shouldSendMessage` uses UTF-16 lengths.
- `Number.parseInt` gives an unbounded integer, and NaN is modelled as no value. Precision loss above 2^53 is not modelled.
- Reactions.Normalize: the model looks up only the emoji table's own keys. In the source the table is a plain object, so an inherited name such as `toString` or `__proto__` is also found, and its value is a function or an object, not a reaction (see Findings). `Reactions.NormalizeAsWritten` models that lookup, and the rest of the model uses the corrected one.
- BatchParser.ReactionsWellFormed: it holds for the corrected lookup. In the source a token such as `[reaction:toString]` pushes the text of a function into `reactions`, and the stream parser calls `onReaction` with it (see Findings).
- HtmlParse.CharOfCode: `String.fromCharCode` takes the code modulo 65536, and the model does the same. Strings here are sequences of code points, so every code unit from D800 to DFFF becomes U+FFFD. That includes both halves of a pair written as two references: `&#55357;&#56832;` decodes to two U+FFFD characters, where the source yields one character, U+1F600.
- The `try`/`catch` of `parseAIResponse` (lines 103, 223-227) is out: nothing in the modelled code throws.
- `DEFAULT_RESPONSE` is kept as a constant with its Vietnamese apology text.
- The message store's database fallbacks (`sentMessagesRepository`), the `setInterval` clean-up timer and `Date.now` are out; the time is a parameter. `isBotMessage`, `getBotMessageByMsgId` and `getLastSentMessage` read the index or the database and are not modelled.
- MessageStore.MessageStore.GetSentMessage has no contract of its own; `MessageStore.Lookup` states it.
- HtmlParse.InlineFormatting: the bold, italic and underline flags are stated only by its definition, one tag test each.
- `parseHtmlContent` drops text outside block tags. The model does the same, as written.
- Rendering to PDF and Word is out (`renderToPdf`, mammoth, sharp, `docx` `Packer`/`Document`). Parser output is this model's own datatypes, and the paragraph spacing is kept as plain numbers.
- The background agent's Groq client, tool registry, `executeAllTools`, `executeTask` and task repository are out. They are parameters or the list of calls made to them.
- `parseToolCalls` and `hasToolCalls` are one `parse` function. `hasToolCalls` is taken to hold exactly when `parse` finds a call.
- JSON payloads are string maps; `JSON.parse` and `JSON.stringify` are not modelled.
- The `catch` of `processTaskWithDecision` (lines 263-266), for an executor that throws, is not modelled.
- `Promise.allSettled` runs all tasks concurrently; the model routes each task on its own, with no interleaving.
- The agent's polling timer, the body of `runAgentCycle` beyond its guard, `exploreAndLearn`, `buildEnvironmentContext` and the prompt texts are out.
- The Groq model's reply is a function of the conversation, so the same conversation gets the same reply.
- AgentRunner.ParseBatchDecisions: the action is kept as the model wrote it. Any action other than `skip` or `delay` executes, as the routing does.
- Duplicate task ids in one batch are not treated specially; they share one decision, as in the source's `Map`.
- StreamParser.ChunkSettles: within one rescan, the nested tags of a block are proved recorded only when the block is reached with its key unrecorded (`BlockStepsInline`). A block whose key was recorded earlier skips its nested tags, as the source does, and the model does not carry across rescans the fact that they were handled then.
- AgentRunner.Agent.CycleProceeds: states only the guard of `runAgentCycle`.
- A documented example of the fuzzy check says `Xin chào bạn` is suppressed after `Xin chào`. In the code the overlap is 8/12, which is not above 0.8, so the candidate is allowed. The model follows the code.

## Findings

| source | as written | input that shows it | evidently intended | confidence | as-written member | corrected member |
|---|---|---|---|---|---|---|
| apps/bot/src/infrastructure/ai/providers/gemini/geminiStream.ts:196-214 | The undo expression has the `i` flag, but the test `fullMatch === 'all'` is case-sensitive. An upper-case `ALL` falls to the index branch and calls `onUndo(parseInt(undefined))`, which is NaN. `processStreamChunk` repeats this at lines 293-311. | `[undo:ALL]` | `onUndo('all')` for `all` in any case | high; not executed | StreamParser.UndoUpperCaseAllAsWritten | StreamParser.UndoArgCorrected |
| apps/bot/src/infrastructure/ai/providers/gemini/geminiStream.ts:144-145 | The emoji table is a plain object, and the lookup tests `EMOJI_TO_REACTION[reaction]` for truth. An inherited name such as `toString` finds `Object.prototype.toString`, which is truthy and is returned as the reaction. `config.schema.ts` repeats this at lines 86-87. | `[reaction:toString]` | Only the six reactions and the table's own emoji are accepted | high; not executed | Reactions.InheritedKeysAsWritten | Reactions.Normalize |

# Review summaries, conversation continuity and LLM utilities, modelled in Dafny

This project models the server-side core of a small chat-bot application and
the text utilities of its Python companion:

- **Review repository** (`review_repository.dfy`, module `ReviewRepository`):
  the review table, read filtered by product, newest first and optionally
  truncated; and the summary table, one record per product, written by a
  whole-record upsert stamped with `generatedAt = now` and
  `expiresAt = now + 7 days`, and read only while `expiresAt > now`. The two
  tables are fields of the class `Repository`; the clock is an integer
  number of milliseconds passed in by the caller.
- **Review service** (`review_service.dfy`, module `ReviewService`): review
  listing with no limit, and the placeholder summary text built from the
  ten newest reviews: a fixed header with the product id, then the review
  contents joined by a blank line.
- **Chat service** (`chat_service.dfy`, module `ChatService`): a chat turn
  reads the last response id stored for the conversation, passes it to the
  text generator as `previous_response_id`, and after a successful
  generation overwrites it with the new response id. The conversation
  registry is the class `ConversationRepository` over a
  `map<string, string>`; the generator is a parameter, any function from
  request to a response or an error.
- **Chat controller** (`chat_controller.dfy`, module `ChatController`): the
  request schema (a prompt whose trimmed length is 1 to 100 UTF-16 code
  units, a conversation id in the 8-4-4-4-12 hexadecimal layout of section 3
  of RFC 4122) and the choice between a 400 reply with the issues, a 200
  reply with the generated message and a 500 reply with a fixed message.
- **LLM utilities** (`llm_utils.dfy`, module `LlmUtils`): `count_tokens`
  with its `len(text) // 4` fallback, `chunk_text` in both its character
  fallback and its token-group loop (including Python's behaviour for a
  non-positive `max_tokens`: a `ValueError` for 0, no chunks for a negative
  value), and the retry loop of `get_chat_response` and `get_embedding`
  (at most `max_retries` attempts, waits of `2**k` seconds between them,
  `LLMError` after the last failure, and a plain return of `None` when
  `max_retries <= 0` because the loop body never runs).

`wrappers.dfy` holds the `Option` and `Result` datatypes the modules share.

## Model

| member | source | states |
|---|---|---|
| `ReviewRepository.OfProduct` | typescript/chat-bot/packages/server/repositories/review.repository.ts:8 | a review is kept exactly when it belongs to the product, with as many copies as the table holds; nothing is added |
| `ReviewRepository.SortNewestFirst` | typescript/chat-bot/packages/server/repositories/review.repository.ts:9 | the result is ordered by `createdAt`, newest first, and is a permutation of the input |
| `ReviewRepository.Take` | typescript/chat-bot/packages/server/repositories/review.repository.ts:10 | no limit keeps every row; a limit keeps a prefix of length `min(limit, count)` |
| `ReviewRepository.Repository.GetReviews` | typescript/chat-bot/packages/server/repositories/review.repository.ts:6-11 | only the product's reviews, newest first, a prefix of all of them sorted; without a limit all of them, with one at most `limit` |
| `ReviewRepository.SummaryRecord` | typescript/chat-bot/packages/server/repositories/review.repository.ts:14-22 | the stored record carries the product, the text, `generatedAt = now` and an expiry exactly seven days (604 800 000 ms) later |
| `ReviewRepository.Upsert` | typescript/chat-bot/packages/server/repositories/review.repository.ts:23-27 | afterwards the product has exactly the new record, whether or not it had one, and every other product's record is unchanged |
| `ReviewRepository.Repository.StoreReviewSummary` | typescript/chat-bot/packages/server/repositories/review.repository.ts:13-28 | the summary table becomes the upsert of the new record, the review table is unchanged, and the table invariant (records keyed by their product, expiring seven days after generation) is kept |
| `ReviewRepository.LiveSummary` | typescript/chat-bot/packages/server/repositories/review.repository.ts:31-36 | content is returned iff a record for the product exists with `now < expiresAt`; null otherwise, including at exactly `expiresAt` |
| `ReviewRepository.Repository.GetReviewSummary` | typescript/chat-bot/packages/server/repositories/review.repository.ts:30-37 | the same strict-expiry read on the repository's summary table |
| `ReviewRepository.ReadAfterStore` | typescript/chat-bot/packages/server/repositories/review.repository.ts:13-36 | a summary stored at `t` reads back as the stored text at every `t' < t + 7 days` and as absent from `t + 7 days` on |
| `ReviewRepository.StoreLeavesOthers` | typescript/chat-bot/packages/server/repositories/review.repository.ts:24 | storing for one product changes no other product's read at any time |
| `ReviewRepository.UpsertKeepsWellFormed` | typescript/chat-bot/packages/server/repositories/review.repository.ts:17-27 | the upsert preserves the table invariant |
| `ReviewRepository.LiveSummaryIsRecent` | typescript/chat-bot/packages/server/repositories/review.repository.ts:14-22 | under the table invariant a live summary belongs to the product asked for and was generated less than seven days before the read |
| `ReviewRepository.ExpiredStaysExpired` | typescript/chat-bot/packages/server/repositories/review.repository.ts:33 | a summary that reads as absent stays absent at every later time until the next store |
| `ReviewService.GetReviews` | typescript/chat-bot/packages/server/services/review.service.ts:5-7 | all of the product's reviews, newest first, a permutation of the matching rows (no limit) |
| `ReviewService.Contents` | typescript/chat-bot/packages/server/services/review.service.ts:11 | the review contents, one per review, in repository order |
| `ReviewService.JoinAgreesWithLeftJoin` | typescript/chat-bot/packages/server/services/review.service.ts:11 | joining with a separator agrees with an independent definition that appends one separator and part at a time |
| `ReviewService.JoinLength` | typescript/chat-bot/packages/server/services/review.service.ts:11 | the joined text has the parts' total length plus one separator between each two neighbours; no parts give the empty text |
| `ReviewService.IntToDecimal` | typescript/chat-bot/packages/server/services/review.service.ts:13 | the product id is written as a minus sign exactly for negative ids, followed by decimal digits |
| `ReviewService.IntDecimalRoundTrip` | typescript/chat-bot/packages/server/services/review.service.ts:13 | the rendering of every product id, negative ones included, is a decimal integer that reads back as that id |
| `ReviewService.DecimalRoundTrip` | typescript/chat-bot/packages/server/services/review.service.ts:13 | the decimal rendering of the product id reads back as the same number |
| `ReviewService.Header` | typescript/chat-bot/packages/server/services/review.service.ts:13 | the fixed header with the product id ends with a newline |
| `ReviewService.SummaryText` | typescript/chat-bot/packages/server/services/review.service.ts:11-13 | the summary starts with the header and continues with the contents joined by `"\n\n"` |
| `ReviewService.SummaryOfNoReviews` | typescript/chat-bot/packages/server/services/review.service.ts:11-13 | with no reviews the summary is the header alone and ends with its newline |
| `ReviewService.SummarizeReviews` | typescript/chat-bot/packages/server/services/review.service.ts:8-15 | the summary is built from the product's `min(10, count)` newest reviews, a prefix of all of them sorted newest first; the function only reads the repository |
| `ChatService.ConversationRepository.GetLastResponseId` | typescript/chat-bot/packages/server/services/chat.service.ts:31-32 | the stored id when the conversation has one, absent on its first turn |
| `ChatService.ConversationRepository.SetLastResponseId` | typescript/chat-bot/packages/server/services/chat.service.ts:34 | the conversation's entry is overwritten and no other entry changes |
| `ChatService.ChatRequest` | typescript/chat-bot/packages/server/services/chat.service.ts:25-33 | every request uses model `gpt-4o-mini`, temperature 0.2 and 200 output tokens, and carries the prompt, the instructions and the previous id |
| `ChatService.Turn` | typescript/chat-bot/packages/server/services/chat.service.ts:25-39 | on success the reply is `{id, message}` from the response and the conversation's stored id becomes the response id; on failure the error is passed on and the registry is unchanged; other conversations are never touched |
| `ChatService.SendMessage` | typescript/chat-bot/packages/server/services/chat.service.ts:21-40 | the reply and the registry afterwards are those of one turn on the registry before the call |
| `ChatService.FailureKeepsRegistry` | typescript/chat-bot/packages/server/services/chat.service.ts:25-34 | a failed generation leaves every stored id as it was |
| `ChatService.SecondTurnContinuesFirst` | typescript/chat-bot/packages/server/services/chat.service.ts:31-34 | after a successful turn, the next request on the same conversation carries that turn's response id as its previous id |
| `ChatService.FirstTurnHasNoPrevious` | typescript/chat-bot/packages/server/services/chat.service.ts:31-32 | a conversation never seen before sends no previous id |
| `ChatController.Trim` | typescript/chat-bot/packages/server/controllers/chat.controller.ts:9 | what is removed at either end is JavaScript white space, and what is kept neither starts nor ends with it |
| `ChatController.TrimIdempotent` | typescript/chat-bot/packages/server/controllers/chat.controller.ts:9 | trimming a trimmed prompt changes nothing |
| `ChatController.Utf16Length` | typescript/chat-bot/packages/server/controllers/chat.controller.ts:10-11 | the length the limits apply to counts UTF-16 code units: between one and two per character |
| `ChatController.UuidTextIsUuid` | typescript/chat-bot/packages/server/controllers/chat.controller.ts:12 | a check of the layout predicate: every 16 octets written in the RFC 4122 layout, as the client's `crypto.randomUUID` ids are, pass the conversation id check |
| `ChatController.PromptIssues` | typescript/chat-bot/packages/server/controllers/chat.controller.ts:7-11 | no issue iff the prompt is a string whose trimmed length is 1 to 100 |
| `ChatController.ConversationIdIssues` | typescript/chat-bot/packages/server/controllers/chat.controller.ts:12 | no issue iff the conversation id is a string in UUID form |
| `ChatController.Validate` | typescript/chat-bot/packages/server/controllers/chat.controller.ts:6-13 | the body is valid iff it is an object with a prompt of trimmed length 1 to 100 and a UUID conversation id |
| `ChatController.ReplyFor` | typescript/chat-bot/packages/server/controllers/chat.controller.ts:24-28 | a successful completion gives `{ response: message }`, a failure the fixed message "Failed to generate a response" |
| `ChatController.Handle` | typescript/chat-bot/packages/server/controllers/chat.controller.ts:17-29 | status 400 with the issues iff the body is invalid; otherwise the reply for the service's outcome on the prompt as received |
| `ChatController.InvalidNeverCallsService` | typescript/chat-bot/packages/server/controllers/chat.controller.ts:18-21 | the reply to an invalid body does not depend on the service |
| `ChatController.UntrimmedPromptIsForwarded` | typescript/chat-bot/packages/server/controllers/chat.controller.ts:23-24 | a prompt with surrounding spaces is valid and reaches the service with those spaces |
| `ChatController.RejectionMessages` | typescript/chat-bot/packages/server/controllers/chat.controller.ts:7-12 | a 400 reply's prompt issue carries the schema's message for a missing, empty or too long prompt, and its last issue the message for a missing conversation id |
| `ChatController.BlankPromptIsEmpty` | typescript/chat-bot/packages/server/controllers/chat.controller.ts:8-10 | a prompt of spaces only is rejected as empty |
| `ChatController.SendMessage` | typescript/chat-bot/packages/server/controllers/chat.controller.ts:17-29 | the reply is `Handle` of the body with the chat service as its service; an invalid body leaves the conversation registry untouched, a valid one leaves the registry of one chat turn |
| `LlmUtils.EstimateTokens` | python/python-ai-agents-transition/week-3/llm_utils.py:146 | the estimate is `len(text) / 4` rounded down |
| `LlmUtils.CountTokens` | python/python-ai-agents-transition/week-3/llm_utils.py:143-153 | the tokenizer's count when it works, the estimate without a tokenizer or when encoding fails |
| `LlmUtils.Slices` | python/python-ai-agents-transition/week-3/llm_utils.py:172 | every piece is non-empty and at most `k` long; no pieces exactly for the empty input |
| `LlmUtils.SlicesFlatten` | python/python-ai-agents-transition/week-3/llm_utils.py:172 | the pieces concatenated give back the input exactly |
| `LlmUtils.SlicesFull` | python/python-ai-agents-transition/week-3/llm_utils.py:171-172 | every piece but the last has exactly `k` elements |
| `LlmUtils.SlicesCount` | python/python-ai-agents-transition/week-3/llm_utils.py:172 | there are `ceil(len / k)` pieces |
| `LlmUtils.SlicesAt` | python/python-ai-agents-transition/week-3/llm_utils.py:172 | piece `j` is `s[j*k : j*k + k]`, the comprehension's element for `i = j*k` |
| `LlmUtils.CharChunks` | python/python-ai-agents-transition/week-3/llm_utils.py:186-188 | a zero chunk size raises `ValueError`, a negative one gives no chunks, a positive one gives chunks that concatenate to the text, `ceil(len / size)` of them, all full but the last |
| `LlmUtils.FallbackChunksWithinBudget` | python/python-ai-agents-transition/week-3/test_main.py:144-146 | every character-fallback chunk is estimated at no more than `max_tokens` tokens |
| `LlmUtils.DecodeAll` | python/python-ai-agents-transition/week-3/llm_utils.py:177-180 | every group decoded in order, or failure exactly when some group fails to decode |
| `LlmUtils.TokenChunks` | python/python-ai-agents-transition/week-3/llm_utils.py:174-182 | with a working tokenizer the chunks are the decoded token groups, each of at most `max_tokens` tokens, `ceil(len / max_tokens)` of them, concatenating to the full token list |
| `LlmUtils.ChunkText` | python/python-ai-agents-transition/week-3/llm_utils.py:156-188 | the loop returns exactly the chunking specification, including the fallback after an encode or decode failure |
| `LlmUtils.Backoff` | python/python-ai-agents-transition/week-3/llm_utils.py:78-82 | the wait after failed attempt `k` is `2**k` seconds |
| `LlmUtils.BackoffTotal` | python/python-ai-agents-transition/week-3/llm_utils.py:78-82 | the waits after `n` failed attempts add up to `2**n - 1` seconds |
| `LlmUtils.RequestWithRetries` | python/python-ai-agents-transition/week-3/llm_utils.py:58-84 | at most `max_retries` attempts; the first success is returned; `LLMError` with the last error only after the last attempt; waits `2**k` after each failure but the last; `None` without any attempt when `max_retries <= 0` |
| `LlmUtils.GetChatResponse` | python/python-ai-agents-transition/week-3/llm_utils.py:37-84 | the chat call under the retry loop: at most `max_retries` attempts and at least one when it is positive; the first successful content; `LLMError` naming `max_retries` and the last error only after every attempt failed; waits `2**k` after each failure but the last; `None` when `max_retries <= 0` |
| `LlmUtils.GetEmbedding` | python/python-ai-agents-transition/week-3/llm_utils.py:87-129 | the embedding call under the retry loop: at most `max_retries` attempts and at least one when it is positive; the first successful vector; `LLMError` naming `max_retries` and the last error only after every attempt failed; waits `2**k` after each failure but the last; `None` when `max_retries <= 0` |

## Left out

- Concurrency: the source has no synchronisation, no single-flight deduplication of summary generation and no invalidate operation, so none is modelled; every operation is one atomic step.
- The database (Prisma) and its failures: the two tables are in-memory fields; a failing query is not modelled.
- `ReviewRepository.Repository.GetReviews`: reviews with equal `createdAt` come back in table order here; the database does not promise any order among them.
- `ReviewRepository.Repository.GetReviews`: a negative `take` (which Prisma reads as "from the end") is not modelled; the limit is absent or a natural number, which covers every caller.
- `ReviewRepository.Repository.StoreReviewSummary`: the source reads the clock twice (`new Date()` and `dayjs()`); the model reads it once, and adds a fixed seven days of milliseconds where dayjs adds calendar days, which differ across a daylight-saving change.
- `conversation.repository.ts` is not part of this model; `ChatService.ConversationRepository` models only the read and overwrite that the chat service relies on.
- The OpenAI client (`llm/client.ts`, `client.*.create` in `llm_utils.py`) is a parameter: a function from request to response or error, and for the retry loop a function from attempt number to outcome.
- The chat instructions (a prompt file read at start-up and substituted into a template) are a parameter of the chat service.
- `ChatController.ConversationIdIssues`: checks the 8-4-4-4-12 hexadecimal layout only; the extra version and variant digit checks of a particular release of the validation library are not modelled.
- The exact text of the 400 body (`error.format()`) is not modelled: a reply carries the kind of each issue, and `ChatController.IssueMessage` gives the messages the schema itself defines; the validation library's default messages are not modelled.
- JavaScript strings may hold lone surrogates, which Dafny characters cannot; the model's strings are sequences of Unicode scalar values.
- Product ids are integers; JavaScript's rendering of a fractional `number` in the summary header is not modelled.
- `LlmUtils.CountTokens`: the tokenizer is an abstract parameter and its `model` argument, unused by the source, is dropped.
- `LlmUtils.TokenChunks`: re-encoding a decoded group may give a different number of tokens, so the "each chunk counts at most `max_tokens`" property is proved for the character fallback only.
- `cosine_similarity`, `find_similar_chunks` and the `test_*` demonstration functions of `llm_utils.py`: floating-point numerics and network calls.
- Logging, `asyncio.sleep` itself (the model records the wait times instead of waiting), HTTP routing, server start-up and the React client.

# Automated tweet bot: a verified model of its decision logic

This project models the decision logic of a tweet bot. The bot scrapes a
Twitter community, formats the most-liked tweets into a prompt, asks Claude
for a draft tweet, asks an operator for approval on Telegram, and posts the
tweet when approved. Every outside call is replaced by a scripted outcome:
the network, the Anthropic client, pandas, tweepy and the clock. A run is
described by the trace of actions it takes. The actions are notifications
(by label), page requests (with their cursor), CSV writes and removals,
model calls, the approval message, polls (with their offset), message edits
and the post.

- `common.dfy` (`Common`) holds the shared vocabulary: `Option`, the
  `Action` trace entries, Python's `in` on strings, ASCII `lower()`, and
  counting over traces.
- `tuple_maker.dfy` (`TupleMaker`) models `format_tweets_for_prompt` as pure
  functions. It ranks rows by likes, keeps the top 50, flattens newlines,
  renders `(user, repr(text), likes)` and joins the records with `",\n"`.
- `llm_caller.dfy` (`LlmCaller`) models `get_claude_response`: a loop over
  `CLAUDE_MODELS`, proved against the specification function `LadderFrom`.
- `scraper.dfy` (`Scraper`) models the scraping loop of `run_bot`. The loop
  calls the method `ScrapeOnce` for each pass and is proved against
  `ScrapeFrom`. One pass is specified by the step function `Handle`.
- `telegram_handler.dfy` (`TelegramHandler`) models
  `request_telegram_approval`: the poll loop and the nested update scan,
  proved against `PollFrom` and `ScanBatch`.
- `bot_config.dfy` (`BotConfig`) models the start-up check of the eight
  environment variables.
- `bot.dfy` (`Bot`) models `run_bot` as stage gating over the results of the
  stages. It proves how many times the CSV is written and removed, how many
  approvals are requested and how many posts are made.

Three behaviours of the code worth noting:
- HTTP 429 uses up a scraping attempt.
- Any other HTTP error (not 401) ends the scrape without a retry.
- An unset bot token defaults to `"8"`, which passes the start-up check.

## Model

| member | source | states |
|---|---|---|
| BotConfig.LoadConfig | main.py:35-46 | Start-up fails exactly when one of the eight values (environment value or default) is empty; otherwise every setting is that value. |
| BotConfig.DefaultTokenPasses | main.py:37-46 | An unset bot token defaults to "8"; with the other seven set, start-up succeeds with token "8". |
| BotConfig.EmptyVariableFails | main.py:44-46 | A variable set to the empty string always makes start-up fail. |
| TupleMaker.ToNumeric | tuple_maker.py:20 | The conversion succeeds exactly when every like cell is numeric. The rows keep their order, username and text, with the count as likes. |
| TupleMaker.SortByLikes | tuple_maker.py:23 | The sort returns a permutation of the rows in non-increasing order of likes. |
| TupleMaker.TopOfRanking | tuple_maker.py:23 | A prefix of any ranking is non-increasing and a sub-multiset of the rows. No dropped row has more likes than a kept row. |
| TupleMaker.SelectTop | tuple_maker.py:23 | Exactly min(50, n) rows are kept, whole rows drawn from the input, non-increasing. Every dropped row has no more likes than every kept row. |
| TupleMaker.CleanText | tuple_maker.py:26 | The text keeps its length and has no newline. Each newline becomes a space; every other character is unchanged. |
| TupleMaker.QuoteFor | tuple_maker.py:35 | The quote is `'` or `"`, and it occurs in the text only when both kinds of quote do. |
| TupleMaker.EscapeChar | tuple_maker.py:35 | A character is written as itself exactly when it is not the backslash, not the chosen quote and not a control character; no escape holds a raw newline. |
| TupleMaker.Repr | tuple_maker.py:34-35 | The literal is wrapped in the quote repr chooses and holds no raw newline. |
| TupleMaker.UnescapeEscape | tuple_maker.py:34-35 | Reading back the escaped body gives the original text. |
| TupleMaker.ReprRoundTrip | tuple_maker.py:34-35 | The literal repr writes reads back to exactly the text it came from. |
| TupleMaker.IntToString | tuple_maker.py:35 | The likes field is a minus sign exactly for a negative count, then decimal digits with no leading zero that read back to the count's magnitude. |
| TupleMaker.Render | tuple_maker.py:35 | A record is "(" then the username, ", ", the repr of the cleaned text, ", ", the like count and ")", each field at its own position and length. |
| TupleMaker.RenderOneLine | tuple_maker.py:26-35 | A record `(user, repr(text), likes)` stays on one line when the username does. |
| TupleMaker.Records | tuple_maker.py:29-35 | One record per kept row, in ranking order, each rendered from that row. |
| TupleMaker.JoinLines | tuple_maker.py:38 | No records give ""; otherwise the result starts with the first record (no leading separator). |
| TupleMaker.JoinLinesEnds | tuple_maker.py:38 | The result ends with the last record (no trailing separator). |
| TupleMaker.JoinLinesConcat | tuple_maker.py:38 | Exactly one ",\n" separates two joined blocks of records. |
| TupleMaker.FormatTweetsForPrompt | tuple_maker.py:16-47 | The result is "" exactly when the file is missing or unreadable, a like count is not numeric, or there are no rows. Otherwise it joins the records of min(50, n) whole rows of the file, in non-increasing order of likes, with no dropped row above a kept one. |
| LlmCaller.GetClaudeResponse | llm_caller.py:13-107 | The loop's text and actions equal the ladder `Ladder`. If the client cannot be created, it returns "" with no call and no notification. |
| Common.Contains | llm_caller.py:68-79 | Python's `in`: never true of a part longer than the text, always true of a prefix of the text. |
| Common.ContainsIffOccurs | llm_caller.py:68-79 | Python's `in` holds exactly when the part occurs at some index of the text. |
| Common.Lower | llm_caller.py:73-79 | `str.lower()` keeps the length, lower-cases each ASCII capital and keeps every other character, so the result has no ASCII capital. |
| LlmCaller.IsNotFound | llm_caller.py:68 | An API error counts as "not found" exactly when "not_found_error" or "404" occurs in its text, case-sensitively. |
| LlmCaller.StopLabel | llm_caller.py:73-90 | "Rate Limit" exactly when the lower-cased text holds "rate_limit"; otherwise "Quota Exceeded" exactly when it holds "quota"; otherwise "API Error". |
| LlmCaller.QuotaSubsumes | llm_caller.py:79 | Any text holding "insufficient_quota" holds "quota", so the first quota test decides nothing the second does not. |
| LlmCaller.MovesOn | llm_caller.py:63-98 | The ladder goes on past an unexpected error and past an API error exactly when it is "not found"; never past a completed call. |
| LlmCaller.LadderCallsInOrder | llm_caller.py:6-11 | The models called form a non-empty run of the list in list order, each at most once, so at most four calls. |
| LlmCaller.LadderCallsUntil | llm_caller.py:41-98 | Exactly the models up to the first one the ladder does not move on past are called, in order, and no later model. |
| LlmCaller.LadderStopsAt | llm_caller.py:59-90 | A success returns its text with no notification. An API error that is not "not found" notifies its label ("Rate Limit", "Quota Exceeded" or "API Error", tested in that order), then "Critical Error", and returns "". |
| LlmCaller.LadderDecidedAt | llm_caller.py:41-107 | The text is the first success's text, preceded only by the "Unexpected Error" notifications. Otherwise the text is "" and the notifications end with the stop label (after an API error) and "Critical Error". |
| LlmCaller.LadderQuietWithoutCredentials | llm_caller.py:73-104 | Without both a bot token and a chat id, no notification is sent. |
| LlmCaller.LadderActions | llm_caller.py:41-104 | The ladder only calls models and sends notifications. |
| Scraper.CursorParam | main.py:116-118 | A request carries a cursor exactly when the cursor is set and non-empty, and then carries that cursor. |
| Scraper.MapTweet | main.py:131-140 | Fields are copied into the record; an absent counter becomes 0 and a present one keeps its value. |
| Scraper.Mapped | main.py:130-140 | One record per tweet, in order, up to the first tweet whose mapping raises. |
| Scraper.AppendPage | main.py:130-140 | The inner loop appends exactly the mapped records and reports whether the whole page was mapped. |
| Scraper.Handle | main.py:120-167 | A 401 always leaves the loop. A pass that lets the loop go on either uses up an attempt or adds at least one record (the termination measure). |
| Scraper.HandleCounts | main.py:146-167 | Handling a response issues no request. It notifies a retried failure only when it uses up an attempt, and uses up at most one. |
| Scraper.ScrapeOnce | main.py:116-167 | One pass of the loop ends in exactly the state, trace and exit that `Handle` gives for the response. |
| Scraper.ScrapeCommunity | main.py:105-167 | The loop's records, actions and 401 flag equal the scrape `ScrapeFrom` from the initial state. |
| Scraper.ScrapeStops | main.py:120-160 | After its request, the scrape stops on an empty page, on a whole page without has_next (its records kept), on a 401 with "Auth Error" (run abandoned) and on any other status but 429 with "HTTP Error". |
| Scraper.ScrapeGoesOn | main.py:120-167 | After its request, a 429 notifies "Rate Limit" and any other exception, or a page that raised part way, notifies "Scraping Error"; each uses up an attempt and keeps the cursor. A whole page with has_next goes on with its next cursor and no attempt used. |
| Scraper.ScrapeExtends | main.py:115-167 | The scrape only appends to the actions and to the records. |
| Scraper.ScrapeNextRequest | main.py:115-121 | While the loop condition holds, the next action is a page request carrying the cursor only when it is truthy. |
| Scraper.ScrapeActions | main.py:115-167 | The scrape only requests pages and sends notifications. |
| Scraper.ScrapeRequestsBound | main.py:115 | Requests are bounded by the remaining budget; none is issued once 50 records are held or attempts reach 3. |
| Scraper.ScrapeRetriesBound | main.py:146-167 | Each "Rate Limit" or "Scraping Error" notification uses up one of the remaining attempts. |
| Scraper.ScrapeRecordsBound | main.py:126-143 | The records exceed 50 by less than the largest page. |
| Scraper.ScrapeEndsAtError | main.py:153-160 | An "Auth Error" or "HTTP Error" notification can only be the scrape's last action. |
| Scraper.ScrapeAuthFailed | main.py:153-156 | The run is abandoned exactly when the scrape's last action is the "Auth Error" of a 401. |
| Scraper.ScrapeCursorHandOff | main.py:116-152 | After a whole page with has_next, the next request carries that page's truthy next_cursor. After a retried failure, it carries the same cursor again. |
| Scraper.ScrapeFromStart | main.py:105-167 | The first request carries no cursor; there are at most 52 requests and at most 3 retried failures, and only requests and notifications. |
| TelegramHandler.RequestTelegramApproval | telegram_handler.py:23-102 | The nested loops return exactly the verdict and actions of `ApprovalRun`. |
| TelegramHandler.OffsetParam | telegram_handler.py:57-59 | A poll carries an offset exactly when the offset is set and non-zero, and then carries that offset. |
| TelegramHandler.Targets | telegram_handler.py:72-74 | An update is a decision candidate exactly when it is a callback whose message id is the sent message's; malformed and other updates never are. |
| TelegramHandler.ScanBatch | telegram_handler.py:69-74 | A batch that does not stop the scan leaves the offset one past its last update, or unchanged when the batch is empty. |
| TelegramHandler.Decide | telegram_handler.py:77-90 | The decision edits the message once, to the approved text for "approve" and to the denied text for any other data; True exactly for "approve" when the edit does not raise. |
| TelegramHandler.PollFrom | telegram_handler.py:55-99 | Polling only appends to the actions taken so far, and adds at least one. |
| TelegramHandler.ScanVerdict | telegram_handler.py:69-90 | A scan with no verdict saw no update that stops it. A matched verdict comes from the first update that stops the scan, a callback on the sent message carrying that data. |
| TelegramHandler.ScanStopsAt | telegram_handler.py:69-90 | The first update that stops the scan decides it and later ones are not examined. Data "approve" or other data becomes the verdict, a malformed update or missing data raises, and the offset is one past the last update processed. |
| TelegramHandler.ScanIgnores | telegram_handler.py:69-74 | A batch with no callback on the sent message and no malformed update is ignored and leaves the offset one past its last update. |
| TelegramHandler.PollActions | telegram_handler.py:55-99 | Polling only polls, except for the last action, which may be the single edit of the message. |
| TelegramHandler.PollApproved | telegram_handler.py:77-99 | True is returned exactly when the last action is the edit to the approved text and that edit did not raise. |
| TelegramHandler.PollDecidedAt | telegram_handler.py:55-90 | When the first callback on the sent message that the polling reaches (every earlier round quiet: no raised poll, no malformed update) carries "approve", the message ends edited to the approved text and True is returned unless the edit raises. Any other data ends with the denied text and False. |
| TelegramHandler.PollApprovedOnlyOnApprove | telegram_handler.py:55-90 | True is returned only when the edit did not raise and the first callback on the sent message that the polling reaches carries "approve". |
| TelegramHandler.PollTimesOut | telegram_handler.py:55-99 | When no round decides, every round polls once, the message is edited to the timeout text, and False is returned. |
| TelegramHandler.PollNextRequest | telegram_handler.py:57-61 | The next poll carries the offset only when it is truthy. |
| TelegramHandler.PollOffsetHandOff | telegram_handler.py:58-70 | A failed poll leaves the offset unchanged for the next poll. An ignored batch moves it one past its last update. |
| TelegramHandler.PollCountBound | telegram_handler.py:55-91 | At most one poll per round before the deadline. |
| TelegramHandler.ApprovalGate | telegram_handler.py:37-102 | The approval message is sent first; if sending fails, it returns False with no poll. True implies the message was sent and then edited to the approved text. |
| TelegramHandler.ApprovalDecision | telegram_handler.py:37-102 | True is returned exactly when the message was sent, the edit did not raise, and the first callback on it that the polling reaches (with no raised poll or malformed update before it) carries "approve". |
| TelegramHandler.ApprovalActions | telegram_handler.py:37-99 | The approval message is the first action; after it come only polls and edits. |
| Bot.RunBot | main.py:103-261 | The run's actions equal the stage-gated trace of the scripted world. |
| Bot.StagesOfKinds | main.py:105-218 | Each stage keeps to its own kinds of action. |
| Bot.CountInRun | main.py:176-245 | An action kind none of the scrape, the generator or the notifications produce is counted as: the CSV write, the removal, the approval's own actions and the post, each once the run gets that far. |
| Bot.BotCsvLifecycle | main.py:175-261 | The CSV is written at most once and removed exactly when the run reaches the generator. It is left behind after "Data Processing Error", "Prompt Error" and the catch-all. |
| Bot.BotAsksOnce | main.py:204-218 | The draft is sent for approval once exactly when it is non-empty, and never otherwise. |
| Bot.BotPostsOnlyWhenApproved | main.py:216-237 | The tweet is posted at most once, exactly when the approval returned True. |
| Bot.PostLabel | main.py:229-235 | After a post the label is "Success", "Posting Failed" or "Posting Error" exactly for a posted, failed or raising `post_tweet`. |
| Bot.TraceExits | main.py:153-258 | Each exit of a run ends its trace as the code does: the scrape's trace alone after a 401, then "Scraping Failed", "File Error", "Data Processing Error", "Prompt Error", the catch-all's "Critical Error" after the CSV write, "AI Generation Failed" with the removal, and the removal after the approval and any post. |
| Bot.BotExits | main.py:153-258 | In any world, a 401 ends the run right after the scrape's "Auth Error" with nothing more; every other exit ends with its own label, and a post ends with the post, the label of its outcome, and the CSV removal. |
| Bot.BotEmptyDraft | main.py:206-214 | An empty draft ends the run with "AI Generation Failed" and the CSV removal, with no approval request and no post. |

## Left out

- Network calls, the Telegram and Anthropic APIs, pandas CSV I/O and tweepy are foreign code. Their results are scripted inputs: per-request responses, per-model outcomes, poll results and flags.
- `post_tweet` (tweepy_post_function.py) is only a scripted outcome (posted, failed, raised). The wrapper's logic is not part of this model.
- `time.sleep` and `time.time` are left out. The sleeps do nothing, and the 300-second deadline of the approval is the number of poll rounds that fit in it.
- Notification bodies are left out, because they embed the current time and error texts; a notification is recorded by its label.
- The prompt template and its `str.format` filling are static text. Only their failure is modelled, as the `promptOk` flag.
- The "Prompt Error" branch at main.py:198-201 cannot be reached: `format_tweets_for_prompt` catches every exception itself, and the template names only the seven placeholders the call supplies. The `promptOk` flag keeps the branch as an over-approximation, so the lemmas that mention "Prompt Error" also cover runs that cannot happen.
- `temperature`, `max_tokens`, API keys, URLs and headers are passed through unchanged and decide nothing.
- Console output is left out. The CSV write and removal are recorded as trace actions, not performed.
- TupleMaker.Repr: Python's `repr` is modelled for ASCII only: the quote choice, and escapes for backslash, the quote, `\n`, `\r`, `\t` and `\xNN` control characters. Non-ASCII characters are not escaped.
- Common.Lower: `lower()` is modelled for ASCII letters only.
- TupleMaker.ToNumeric: likes are integers. Floats and NaN from pandas are not modelled, and a non-numeric cell makes the conversion fail as a whole.
- The CSV read back by the formatter is scripted separately from the records written, so the model does not tie the two together.
- Bot.RunBot: the `generationRaises` flag over-approximates a path the code practically never takes. `get_claude_response` catches exceptions around the client and every model call itself, so one could only escape from an `except` handler, after model calls were made; the flag sends "Critical Error" right after the CSV write and drops the ladder's partial actions.
- Bot.RunBot: of the exceptions the catch-all of `run_bot` can receive, only one raised by the generation call is modelled (`generationRaises`). The other steps either catch their own exceptions or are modelled as scripted outcomes.
- The `except` at main.py:219-223 is dead code, since `request_telegram_approval` catches every exception itself. It is not modelled.
- Scraper responses are modelled at the level of their decoded shape: a page, an HTTP status or an exception. Malformed JSON and a missing status are the `Failed` case.
- A tweet's fields are modelled as optional values. Only a non-object tweet or author makes the mapping raise.
- Scraper.ScrapeCommunity: the `break` after a failure that uses up the last attempt is expressed by the loop condition, which leaves the loop at the same point.

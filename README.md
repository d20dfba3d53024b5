# Telegram lead finder: verified model of its core

The bot reads Telegram group chats and flags messages that contain one of its stored
keyword phrases as leads. For each lead it does four things:

- it scores the text against a weighted table of buying signals;
- it forwards the message with a summary card;
- it stores the lead, with daily statistics, in a SQLite store shared with a web console;
- it may answer automatically, either with an AI reply fetched from an HTTP model service
  (with retries) or with a canned template, within a daily quota and working hours.

A launcher (`main.py`) loads a `.env` file and checks that the Telegram credentials are present.

This project models that core in Dafny and proves its laws. All modules verify together.

| module | file | models |
|---|---|---|
| `Wrappers` | wrappers.dfy | `Option`, `Result` |
| `Text` | text.dfy | the Python string built-ins the core relies on: `lower`, `strip`, `in`, `startswith`, `find`, `split`, `partition`, `str(int)`, `int(str)` |
| `Clock` | clock.dfy | one injected clock in seconds, with its day and hour |
| `Sorting` | sorting.dfy | `ORDER BY` as a sort of a set by a total preorder |
| `Json` | json.dfy | `json.dumps` / `json.loads` for string lists and scalars (`ensure_ascii=False`) |
| `Scoring` | scoring.dfy | `kw_hit`, `analyze_lead_quality`, the tier ladder |
| `Reply` | reply.dfy | the throttle of `send_auto_reply_together`, reply delays, the fallback templates, the retry policy and response clean-up of `generate_together_response` |
| `History` | history.dfy | `is_message_in_timeframe`, the `scan_history` loop, the export rows and their de-duplication |
| `Forwarding` | forwarding.dfy | `resolve_chat`, `resolve_forward_target`, `format_target_display` and `forward_with_card` |
| `LeadStore` | store.dfy | `SharedDatabase`: each SQL statement is a transition of an in-memory `Db` value, and the class `SharedDatabase` performs those transitions on its fields |
| `WebServer` | webserver.dfy | `analyze_lead_quality_simple`, and the route bodies of `test_keyword`, `manage_keywords`, `manage_chat_sources` and `handle_response_action` |
| `DotEnv` | dotenv.dfy | the `.env` parser and the required-variable check of `check_environment` |

How the model stands in for the outside world:

- **Inputs.**
  - The clock, the random picks and the model service's answers are parameters. The service is an infinite stream `nat -> Outcome`, and the k-th request receives `oracle(k)`.
  - Telegram lookups are functions from the reference asked for to an optional entity.
  - Whether a send or a database save succeeds is a boolean input.
- **Pure and imperative parts.** Where the source is a pure decision, the model is a function. Where the source loops or mutates, the model is a method with loop invariants, proved against a specification function. This applies to the scoring loops, `kw_hit`, the scan loop, the retry loop, the `.env` loop, and the throttle's and `FORWARD_TARGET`'s globals.

Where the written description of the system and the code differ, the model follows the code:

- **Scoring example.** A text mentioning "бюджет" and "быстро" scores 3 + 1 = 4. That is a GOOD lead, not a HOT one.
- **Throttle.** The daily limit is checked before a long sleep and the counter is incremented after it. Concurrent replies can therefore overshoot the limit. The quota lemmas (`Reply.SendsWithinDay`, `Reply.EligibleFillQuota`) hold for a sequential replay of requests only.

Behaviour of the code that the model keeps as written:

- **Row replacement.** `add_lead` writes its `chat_sources` and `daily_stats` rows with `INSERT OR REPLACE`. Every column the statement does not list is reset: `chat_type` and `last_scan_time` become null, and today's reply counters restart at 0.
- **Unknown action.** `handle_response_action` with an action other than approve, reject or edit reaches `message` unbound. The route then fails with a server error and the store is unchanged.
- **Keyword delete without a phrase.** `DELETE /api/keywords` without a `phrase` argument calls `.lower()` on None, which is also a server error.
- **Chat-source delete without an id.** Without a `chat_id` argument, the DELETE matches no row and answers "not found".
- **Double minus.** A forward target such as "--5" passes the `lstrip("-").isdigit()` test, but `int()` rejects it. The exception handler then falls back to saved messages.
- **`test_keyword`.** Its matching loop is the same early-exit loop as `kw_hit`, so `WebServer.TestKeyword` calls `Scoring.KwHit` on the active keywords.

## Model

| member | source | states |
|---|---|---|
| Scoring.KwHit | app.py:187-204 | an empty keyword list never matches; otherwise the result is true iff some phrase occurs in the lower-cased text |
| Scoring.KeywordMatchAt | app.py:199-202 | a match means some stored phrase occurs at some position of `Lower(text)` |
| Scoring.KeywordMatchLower | app.py:196-200 | matching is case-insensitive: lower-casing the text first changes nothing |
| Scoring.AddSignals | app.py:234-237 | the loop adds exactly the points of the rows whose phrase occurs in the text, and appends their reasons in table order |
| Scoring.Analyze | app.py:206-271 | result = positives then negatives scored once each, labelled by the tier of the total; one reason per fired row |
| Scoring.AnalyzeLeadQuality | app.py:206-271 | the bot's scorer uses its own 15 positive and 9 negative rows |
| Scoring.TierOf | app.py:258-265 | a four-way partition of the score: ≥5 hot, 2..4 good, 0..1 normal, <0 low quality |
| Scoring.TierLabelInjective | app.py:258-265 | the four labels are distinct, so a label determines its tier |
| Scoring.FiredIff | app.py:234-237 | a row is among the fired rows iff its phrase occurs in the lower-cased text |
| Scoring.FiredSound | app.py:234-237 | every fired row is a row of the table whose phrase occurs in the text |
| Scoring.FiredBounds | app.py:234-255 | the points of any fired subset lie between the table's total loss and total gain |
| Scoring.AnalysisBounds | app.py:210-255 | every score lies between the sum of all negative and the sum of all positive weights |
| Scoring.BotTableTotals | app.py:216-250 | the bot's positive weights add to 31 and its negative weights to -26 |
| Scoring.PositiveTotals | app.py:216-232 | the positive table gains at most 31 and never loses |
| Scoring.NegativeTotals | app.py:240-250 | the negative table loses at most 26 and never gains |
| Scoring.LeadScoreBounds | app.py:210-255 | the bot's score always lies in [-26, 31] |
| Scoring.OplachuCountsTwice | app.py:219-220 | a text containing "оплачу" also fires "плачу": two rows fire and the reason "💰 Готов платить" appears at least twice |
| Reply.Admission | app.py:467-487 | a new day resets the counter and the reset date even when the request is then denied; the denials come in order (limit, hours 9..21, negative score), each with its exact condition |
| Reply.SendsWithinDay | app.py:468-528 | replayed sequentially within one day, the counter grows by the number of sends and never passes the limit |
| Reply.EligibleFillQuota | app.py:468-528 | eligible requests that all send successfully fill the quota exactly: min(requests, remaining) sends |
| Reply.DelayBounds | app.py:506-514 | the delay range is [300,900] for hot scores, [900,1800] for good and [1800,3600] otherwise |
| Reply.ReplyDelay | app.py:516 | every delay drawn lies in the range of its score's tier |
| Reply.ReplyDelayCovers | app.py:516 | every value in that range can be drawn |
| Reply.TemplatesFor | app.py:451-456 | the template list chosen is never empty |
| Reply.FallbackResponse | app.py:435-458 | the fallback reply is always a member of the list chosen for its label |
| Reply.HotLabelTemplates | app.py:451-452 | the hot label selects the "🔥 ГОРЯЧИЙ" templates |
| Reply.GoodLabelTemplates | app.py:453-454 | the good label selects the "🟡 ХОРОШИЙ" templates |
| Reply.OtherLabelTemplates | app.py:455-456 | the normal and low-quality labels select the default templates |
| Reply.HotLabelIsHot | app.py:451 | the hot label contains "ГОРЯЧИЙ" |
| Reply.GoodLabelNotHot | app.py:451-453 | the good label does not contain "ГОРЯЧИЙ" |
| Reply.GoodLabelIsGood | app.py:453 | the good label contains "ХОРОШИЙ" |
| Reply.OtherLabelPlain | app.py:455 | the other two labels contain neither word |
| Reply.FallbackLong | app.py:435-458 | every template is longer than 10 characters |
| Reply.RemoveThink | app.py:356 | removing `<think>…</think>` blocks never lengthens the text and leaves text without "<think>" unchanged; `RemoveThinkBlock` states what a block removal does |
| Reply.RemoveThinkBlock | app.py:356 | a `<think>` block before which no `<think>` occurs and inside which no `</think>` occurs is removed with both tags, and the rest is cleaned the same way (the non-greedy match ends at the first closing tag) |
| Text.FindAfterPrefix | app.py:356 | a tag whose first character occurs nowhere else in it is first found right after a prefix that lacks it |
| Reply.StripCollapsed | app.py:359-360 | stripping a text whose whitespace runs are collapsed leaves a single-spaced text contained in it |
| Reply.CollapseSpaces | app.py:360 | `re.sub(r'\s+', ' ', …)` leaves no whitespace other than single spaces |
| Reply.AfterMarkerNormal | app.py:363-364 | the text after the last "Ответ:" of a single-spaced text, stripped, is single-spaced and holds no "Ответ:" |
| Reply.AfterMarkerClean | app.py:363-364 | the conditional marker step (only when the marker occurs) turns a single-spaced text into a single-spaced text free of the marker |
| Reply.CleanResponseNormal | app.py:353-364 | every cleaned response is single-spaced and holds no "Ответ:" (via `CleanTailNormal`) |
| Reply.CleanTailNormal | app.py:358-364 | after newline runs are collapsed, collapsing spaces, stripping and cutting after "Ответ:" leave a single-spaced text without "Ответ:" |
| Reply.RetryWaits | app.py:376-414 | a 429 waits `attempt * 15` seconds; any other retry waits 10 s after a status or 5 s after an exception, and only before the third attempt; a 404 or a too-short 200 moves to the next model |
| Reply.RunFromCall | app.py:315-414 | one attempt is one request; then the run finishes, waits `w` and retries, or moves to the next model, as the outcome is classified |
| Reply.TryModel | app.py:315-414 | the attempt loop of one model either returns the run's reply with its trace, or hands over to the next model with the trace so far |
| Reply.NextModelRun | app.py:417-419 | between models there is a 5-second pause, but none after the last model |
| Reply.GenerateTogetherResponse | app.py:274-428 | no API key gives None with no requests; otherwise the result is the reply of the specified retry run (or the fallback text) and the trace is that run's trace |
| Reply.CallsFrom | app.py:311-315 | from attempt `a` of a model, that model is asked at most `4 - a` more times and each later model at most 3 times |
| Reply.AtMostThreeAttempts | app.py:311-315 | with distinct model names, no model is asked more than three times |
| Reply.ClassifyGenerated | app.py:344-371 | a generated reply is longer than 10 characters, single-spaced and free of "Ответ:" |
| Reply.GeneratedIsClean | app.py:344-371 | every reply the retry run generates has those properties |
| Reply.ReplyAlwaysUsable | app.py:366-428 | the reply text used is never short: a generated text or a fallback template, both longer than 10 characters |
| Reply.RateLimitedThrice | app.py:376-381 | with the configured single model, a service that always answers 429 is asked three times, with waits of 15, 30 and 45 seconds, then the fallback is used |
| Reply.UnauthorizedFallsBack | app.py:383-385 | a 401 answer ends the run at once with the fallback |
| Reply.ReplyThrottle.constructor | app.py:121-122 | the counter starts at 0, dated today |
| Reply.ReplyThrottle.Admit | app.py:467-487 | the counter, reset date and decision are those of `Admission` |
| Reply.ReplyThrottle.SendAutoReply | app.py:461-541 | the counter and reset date step as `Admission`; a denied request gives that denial; an admitted request without a key gets no response; with a key the reply of the retry run is sent after a delay in its tier's range, and the counter grows by 1 exactly when that send succeeds |
| History.DateFrom | app.py:99-104 | the window starts `hours_back` hours before start-up in "hours" mode, otherwise `days_back` days before |
| History.InTimeframe | app.py:544-557 | a message is in the window iff `DATE_FROM ≤ t ≤ now`; future messages are rejected |
| History.Window | app.py:839 | at most the first `MAX_MESSAGES_PER_CHAT` messages are read |
| History.ScanChat | app.py:836-868 | the loop's counters, stop flag and found messages equal the specified scan of the window |
| History.ScanCounts | app.py:840-868 | `checked` counts the messages read, `in_timeframe` the in-window ones among them, `passed` the found ones |
| History.ScanOldRun | app.py:843-852 | a scan that did not stop ends with `too_old_count` equal to the current run of out-of-window messages, below 10; a scan that stopped did so right after a run of 10 such messages |
| History.ScanNoEarlierRun | app.py:843-849 | the scan reads past no earlier run of 10 out-of-window messages |
| History.CountersOrdered | app.py:836-868 | `passed ≤ in_timeframe ≤ checked ≤ MAX_MESSAGES_PER_CHAT` |
| History.ReadToEnd | app.py:839-849 | without a run of 10 old messages, every message is read |
| History.StopsAtFirstRun | app.py:843-848 | the scan stops right after the first run of 10 old messages |
| History.OldRun | app.py:844-851 | the trailing run of out-of-window messages never exceeds the messages read |
| History.InWindowCount | app.py:852 | the in-window count never exceeds the messages read |
| History.RowOf | app.py:860-866 | the exported text is the first 200 characters of the message |
| History.RowsOf | app.py:860-866 | one export row per found message, in order |
| History.ChatLines | app.py:822-823 | a text is a kept chat line iff it is the stripped form of some line of the file and is not empty; every kept line is already stripped |
| History.ChatLinesAppend | app.py:822-823 | the chat lines of `a + b` are those of `a` followed by those of `b`; one line gives its stripped form, or nothing when that is empty |
| History.StrippedLines | app.py:823 | one stripped line per line of the file, in order |
| History.NonBlank | app.py:823 | a text is kept iff it is present and not empty |
| History.NonBlankAppend | app.py:823 | the filter works line by line: the kept lines of `a + b` are those of `a` followed by those of `b`, so order and repetitions are kept |
| History.NonBlankOne | app.py:823 | a single line is kept iff it is not empty |
| History.ChatLinesComplete | app.py:823 | every line whose stripped form is not empty is kept, stripped |
| History.DedupByText | app.py:884 | de-duplication keeps the same set of texts |
| History.DedupSnoc | app.py:884 | de-duplication works row by row in input order: a row is appended after the rows kept so far iff no earlier row has its text |
| History.DedupDistinct | app.py:884 | after de-duplication no two rows share a text |
| History.DedupKeepsFirst | app.py:884 | every kept row is the first row with its text |
| History.ScanHistory | app.py:817-884 | the lines of the chats file are stripped and the blank ones dropped (`ChatLines`), each is resolved, the collected rows are the export rows of the scan of every resolved chat, in order, and the export is their de-duplication by text |
| History.CollectRows | app.py:827-866 | the rows collected are the export rows of the scan of every resolved chat, in order; unresolved chats are skipped |
| History.HistoryRowsAppend | app.py:827-866 | the rows of chats one after the other are the rows of the first ones followed by those of the rest |
| History.ResolvedRows | app.py:827-866 | resolved chat lines give their rows line by line in file order; a single line gives `LineRows`: none when it does not resolve to a chat or group, else one row per message its scan found |
| History.LineRows | app.py:828-864 | an unresolved line gives no rows; a resolved one gives exactly one row per found message, each built from its title, its line and that message |
| History.ScansOnlyAccepted | app.py:827-833 | with `resolve_chat` and the client's lookup as the resolution, a line is scanned iff `resolve_chat` accepts its entity (a basic chat or a megagroup), under that entity's own title and over its messages; a refused or unknown line gives no rows |
| Forwarding.ClassifyChatRef | app.py:567-589 | a reference is read as an invite link iff it starts with `https://t.me/` and contains "/+" |
| Forwarding.MalformedIff | app.py:584-589 | a reference is malformed exactly when it is not a link, passes the `lstrip("-").isdigit()` test, and `int()` rejects it |
| Forwarding.InviteLink | app.py:569-573 | an invite link asks for `https://t.me/+<hash>`, where the hash is what follows the first "/+" of the reference |
| Forwarding.PublicLink | app.py:577-580 | any other link asks for its last "/"-separated segment, which holds no "/" |
| Forwarding.PublicLinkName | app.py:577-580 | `https://t.me/<name>` asks for `<name>` |
| Forwarding.NotPlusLink | app.py:569 | a link without "+" is not an invite link |
| Forwarding.ChatRefIdRoundTrip | app.py:584-586 | the text `str(n)` as a reference asks for the numeric id `n` |
| Forwarding.NumericText | app.py:584-586 | `str(n)` is neither a link nor a name with "@", passes the digit test and parses back to `n` |
| Forwarding.ResolveChat | app.py:560-607 | a chat is accepted iff the reference is well formed, the lookup finds an entity, and it is a Chat or a megagroup Channel that is not broadcast; the entity then is the looked-up one |
| Forwarding.ForwardTargetRef | app.py:614-620 | a setting whose lower-case form is "me" (after "env" is replaced by FORWARD_TO, or "me" when that is empty) means saved messages; a name target is not numeric-looking and is the setting itself; an id target is the parsed setting |
| Forwarding.NumberIsNotAWord | app.py:615-617 | a number never reads as "me" or "env" |
| Forwarding.NumericTarget | app.py:614-620 | a numeric setting, direct or through "env", asks for that id |
| Forwarding.SavedMessagesDefaults | app.py:615-618 | "env" with an empty FORWARD_TO means saved messages, and so does any capitalisation of "me" |
| Forwarding.DoubleMinusTarget | app.py:619-623 | "--5" passes the digit test but `int()` rejects it, so the lookup fails and the target falls back to saved messages |
| Forwarding.DoubleMinusText | app.py:620 | "--5" is lower-case, passes the digit test and does not parse |
| Forwarding.ResolveForwardTarget | app.py:609-623 | saved messages, or the looked-up entity, or saved messages when the lookup fails |
| Forwarding.UserName | app.py:632-639 | a user's name is never empty ("Пользователь" when both parts are missing) |
| Forwarding.FormatTargetDisplay | app.py:625-649 | the display text for saved messages, users with or without a username, chats and channels, and unknown targets |
| Forwarding.UserNameBoth | app.py:633-639 | with both parts present, the name is "first last" |
| Forwarding.FullName | app.py:672-674 | the joined, stripped full name has no whitespace at either end |
| Forwarding.SenderDisplay | app.py:663-681 | never empty; "@username" when there is one, else the full name with a mention link, else "id:<id>" with a mention of "Пользователь"; non-users are "unknown" with no clickable form |
| Forwarding.SenderIdShown | app.py:679-681 | a user without a username or a name is shown as "id:" followed by their id, which parses back |
| Forwarding.SenderNameTrimmed | app.py:674-677 | a displayed full name has no whitespace at either end |
| Forwarding.ChatSourceOf | app.py:699-705 | empty only for the username "@"; otherwise the username, less one leading "@"; "chat_<id>" without a username; "unknown_chat" for an entity without an id |
| Forwarding.ChatSourceId | app.py:701 | "chat_<id>" carries the entity's id, which parses back |
| Forwarding.MessageLink | app.py:686-691 | a message link exists iff the source is a channel with a username |
| Forwarding.AutoReplyStatus | app.py:744 | the card says "scheduled" iff auto-reply is on and the score is not negative |
| Forwarding.CardLines | app.py:747-760 | the six fixed lines (found in, date, author, quality with score, status, lead id), then the reasons line iff there are reasons, then the link line iff there is a link |
| Forwarding.ScheduledAgreesWithCard | app.py:744-783 | when the Together.ai client exists (a key is set and `enable_together_ai` is on) and the score is not negative, the card says "scheduled" exactly when a reply task is started; without the client (no key, or the flag off) the card still says "scheduled" although no task is started |
| Forwarding.Forwarder.constructor | app.py:49-71 | the forwarder keeps its settings (target setting, FORWARD_TO, auto-reply flag, key, `enable_together_ai`) and starts with no target |
| Forwarding.Forwarder.EnsureTarget | app.py:658-659 | the target is resolved once, then reused |
| Forwarding.Forwarder.ForwardWithCard | app.py:653-790 | the target is resolved once; a successful save is the store's `add_lead` of the analysed message, with a positive id; a failed save stores nothing and uses id 0; the card is built from that id; a reply is scheduled iff auto-reply is on, a key is set and `enable_together_ai` is on; the store invariant is kept |
| LeadStore.EmptyDbValid | shared_db.py:19-120 | the empty store satisfies the store invariant |
| LeadStore.ReasonsRoundTrip | shared_db.py:134-202 | reasons stored by `add_lead` are read back by `get_recent_leads` unchanged |
| LeadStore.CountLead | shared_db.py:158-171 | the replaced daily row stays balanced, and its reply counters restart at 0 |
| LeadStore.CountLeadBucket | shared_db.py:158-171 | `add_lead` adds 1 to today's total and 1 to exactly the bucket of the score's tier |
| LeadStore.CountSourceLead | shared_db.py:149-155 | the replaced chat-source row has `leads_count` + 1 (1 if absent), is active, has `last_lead_time` now, and `chat_type` and `last_scan_time` become null |
| LeadStore.AddLeadTo | shared_db.py:126-177 | one lead row appended, with the next id; the source and today's rows exist; the other tables are unchanged |
| LeadStore.AddLeadValid | shared_db.py:126-177 | the invariant is kept, and the new id is positive and larger than every existing id |
| LeadStore.AddLeadRow | shared_db.py:134-171 | the new row holds the given source, sender id and name, text, score and label; the title falls back to the source; the reasons read back; it is unanswered; the source's row is `CountSourceLead` of its old row (its count up by 1), other sources are unchanged; today's row is `CountLead` of its old row |
| LeadStore.MarkLead | shared_db.py:399-403 | only the lead with that id changes, and it is marked responded with the text, time and type |
| LeadStore.CountResponse | shared_db.py:405-412 | `responses_sent` and the same-named counter go up for "ai" and "manual" replies; any other type changes nothing |
| LeadStore.MarkRespondedIn | shared_db.py:393-416 | the leads are marked; when today's daily row exists it becomes `CountResponse` of it (only `ai` and `manual` count), every other daily row and the other tables are unchanged |
| LeadStore.EditedChangesNoStats | shared_db.py:406-407 | an "edited" response changes no statistics |
| LeadStore.MarkRespondedValid | shared_db.py:393-416 | the invariant is kept; only leads with that id change, and at most one lead has it |
| LeadStore.Normalize | shared_db.py:268 | normalising never lengthens a phrase |
| LeadStore.NormalizeIdempotent | shared_db.py:268 | normalising twice equals normalising once |
| LeadStore.AddKeywordTo | shared_db.py:261-274 | the normalised phrase is inserted iff absent; a duplicate returns false and leaves the store unchanged |
| LeadStore.RemoveKeywordFrom | shared_db.py:276-288 | true iff the normalised phrase existed; afterwards it is absent, every other phrase is kept with its row unchanged, and the other tables are unchanged |
| LeadStore.KeywordHitIn | shared_db.py:306-319 | the set of phrases is unchanged; only the normalised phrase's row changes: one more hit, `last_hit_at` becomes now, `active` and `created_at` unchanged; the other tables are unchanged |
| LeadStore.AddKeywordTwice | shared_db.py:261-274 | adding the same normalised phrase again fails and changes nothing |
| LeadStore.AddThenRemoveKeyword | shared_db.py:261-288 | removing a phrase just added succeeds and restores the store |
| LeadStore.KeywordOrder | shared_db.py:297-299 | "hits descending, then phrase" is a total preorder |
| LeadStore.AddPendingTo | shared_db.py:321-336 | one pending row appended with the next id, status "pending" and no edit |
| LeadStore.UpdateStatusIn | shared_db.py:371-391 | only rows with that id change: their status and time are set, the edit only when the edited text is non-empty |
| LeadStore.PendingValid | shared_db.py:321-391 | both pending-response operations keep the invariant |
| LeadStore.LeadById | shared_db.py:346 | the join finds a lead with that id, or there is none |
| LeadStore.OpenPending | shared_db.py:343-347 | exactly the pending rows whose lead exists |
| LeadStore.PendingQuery | shared_db.py:340-348 | those rows, newest first |
| LeadStore.AddChatSourceTo | shared_db.py:448-465 | a new source is inserted iff absent, named by the id when no name is given; a duplicate changes nothing |
| LeadStore.RemoveChatSourceFrom | shared_db.py:467-479 | true iff the source existed; afterwards it is absent, every other source is kept with its row unchanged, and the other tables are unchanged |
| LeadStore.SourceOrder | shared_db.py:428 | "leads count descending, then name" is a total preorder |
| LeadStore.SetSettingIn | shared_db.py:506-522 | the key's row is replaced under its type tag; every other key is unchanged |
| LeadStore.SettingRoundTrip | shared_db.py:495-522 | a value written under a fitting type tag reads back as itself |
| LeadStore.SettingFrame | shared_db.py:481-522 | writing one key does not change what another key reads |
| LeadStore.LeadsSince | shared_db.py:192 | exactly the leads stamped at or after the start |
| LeadStore.Limit | shared_db.py:194 | `LIMIT n` keeps the first n rows, or all of them when n is negative or at least the count |
| LeadStore.RecentQuery | shared_db.py:185-195 | the leads of the window, newest first: exactly `limit` of them when the window holds more (all when the limit is negative or does not cut), a sub-multiset of the window, and no lead of the window left out is newer than one returned |
| LeadStore.LimitKeeps | shared_db.py:193-194 | cutting a sorted result keeps it sorted and a sub-multiset |
| LeadStore.LimitOmitsLater | shared_db.py:193-194 | what `LIMIT` cuts from a sorted result comes after everything it keeps |
| LeadStore.LeadViewOf | shared_db.py:198-214 | the title falls back to the source, and the reasons are decoded |
| LeadStore.StatsOf | shared_db.py:230-239 | the total is the number of leads counted |
| LeadStore.StatsPartition | shared_db.py:230-239 | hot + good + normal + low = total, and responded ≤ total |
| LeadStore.LeadsStatsOf | shared_db.py:223-259 | the same partition over the leads of the last `days` days |
| LeadStore.SharedDatabase.constructor | shared_db.py:11-17 | a new store is empty and valid |
| LeadStore.SharedDatabase.AddLead | shared_db.py:126-177 | the tables step as `AddLeadTo`, keeping the invariant; the id is fresh |
| LeadStore.SharedDatabase.MarkLeadResponded | shared_db.py:393-416 | the tables step as `MarkRespondedIn` |
| LeadStore.SharedDatabase.AddKeyword | shared_db.py:261-274 | the tables step as `AddKeywordTo`; the store invariant `Valid` is kept |
| LeadStore.SharedDatabase.RemoveKeyword | shared_db.py:276-288 | the tables step as `RemoveKeywordFrom`; the store invariant `Valid` is kept |
| LeadStore.SharedDatabase.KeywordHit | shared_db.py:306-319 | the tables step as `KeywordHitIn`; the store invariant `Valid` is kept |
| LeadStore.SharedDatabase.GetKeywords | shared_db.py:290-304 | it returns exactly the selected phrases (active only when asked), each once, ordered by hits descending and then by phrase |
| LeadStore.SharedDatabase.AddPendingResponse | shared_db.py:321-336 | the tables step as `AddPendingTo` |
| LeadStore.SharedDatabase.UpdateResponseStatus | shared_db.py:371-391 | the tables step as `UpdateStatusIn` |
| LeadStore.SharedDatabase.GetPendingResponses | shared_db.py:338-369 | one view per row of `PendingQuery`, joined with its lead, in order |
| LeadStore.SharedDatabase.AddChatSource | shared_db.py:448-465 | the tables step as `AddChatSourceTo`; the store invariant `Valid` is kept |
| LeadStore.SharedDatabase.RemoveChatSource | shared_db.py:467-479 | the tables step as `RemoveChatSourceFrom`; the store invariant `Valid` is kept |
| LeadStore.SharedDatabase.GetChatSources | shared_db.py:418-446 | every source exactly once with its row's columns, ordered by leads count descending and then by name |
| LeadStore.SharedDatabase.SetSetting | shared_db.py:506-525 | the tables step as `SetSettingIn`; the store invariant `Valid` is kept |
| LeadStore.SharedDatabase.GetSetting | shared_db.py:481-504 | the stored value read back by its type; the default for a missing key |
| LeadStore.SharedDatabase.GetRecentLeads | shared_db.py:179-221 | one view per row of `RecentQuery` over the last `hours_back` hours |
| LeadStore.SharedDatabase.GetLeadsStats | shared_db.py:223-259 | the statistics of the window, whose buckets partition the total |
| Sorting.InsertBySorted | shared_db.py:428 | inserting into a sorted sequence keeps it sorted |
| Sorting.SortBySorted | shared_db.py:428 | the sort's result is sorted |
| Sorting.SortSet | shared_db.py:297-299 | `ORDER BY` returns a sorted permutation of the selected rows |
| Sorting.TextLeTotal | shared_db.py:297 | text order is total |
| Sorting.TextLeTransitive | shared_db.py:297 | text order is transitive |
| Sorting.TextLeAntisymmetric | shared_db.py:297 | text order is antisymmetric |
| Json.DumpStringsRoundTrip | shared_db.py:134-200 | `json.loads(json.dumps(xs))` gives back the list of strings |
| Json.QuoteRoundTrip | shared_db.py:134 | a quoted string parses back to itself and leaves the rest |
| Json.EscapeRoundTrip | shared_db.py:134 | every escaped string body parses back |
| Json.EscapeCharRoundTrip | shared_db.py:134 | every escaped character parses back |
| Json.QuotedItemsRoundTrip | shared_db.py:134 | a non-empty list body parses back to its items |
| Json.DumpScalarRoundTrip | shared_db.py:501-513 | a JSON setting value reads back as itself |
| Json.DumpIntRoundTrip | shared_db.py:501-513 | an integer written as JSON reads back |
| Json.DumpStrRoundTrip | shared_db.py:501-513 | a string written as JSON reads back |
| Text.StripIdempotent | shared_db.py:268 | stripping twice equals stripping once |
| Text.StripLower | shared_db.py:268 | stripping and lower-casing commute |
| Text.LowerIdempotent | shared_db.py:268 | lower-casing twice equals lower-casing once |
| Text.ContainsIff | app.py:199-200 | `p in s` holds iff `p` occurs at some position of `s` |
| Text.IntToStringRoundTrip | app.py:584-586 | `int(str(n)) == n` |
| Text.SplitAllJoin | shared_db.py:202 | splitting and re-joining at a separator gives the text back |
| Text.CollapseRuns | app.py:359-360 | empty iff the input is; a first character outside the class is kept; every class character left is a space, and no two class characters are adjacent |
| WebServer.AnalyzeLeadQualitySimple | web_server.py:115-160 | the simplified scorer is the scorer over its 4 positive and 3 negative rows, with the same label ladder and one reason per fired row |
| WebServer.SimpleTableTotals | web_server.py:122-139 | its positive weights add to 9 and its negative weights to -9 |
| WebServer.SimpleScoreBounds | web_server.py:117-144 | its score always lies in [-9, 9] |
| WebServer.MatchListing | web_server.py:96-103 | scanning a listing of the keywords matches iff some keyword occurs in the message |
| WebServer.TestKeyword | web_server.py:87-113 | an empty message is rejected; otherwise the hit is true iff some active keyword occurs in the lower-cased message, with the simplified quality and the matching message |
| WebServer.RoutePhrase | web_server.py:62 | `strip().lower()` is the store's normalisation |
| WebServer.PostKeyword | web_server.py:59-71 | an empty phrase is an error and inserts nothing; otherwise the keyword is added, or "already exists" is reported and nothing changes; the store invariant `Valid` is kept |
| WebServer.DeleteKeyword | web_server.py:73-80 | a missing phrase is a server error; otherwise the keyword is removed, reporting whether it was found; the store invariant `Valid` is kept |
| WebServer.PostChatSource | web_server.py:165-178 | the id is stripped; an empty id is an error and inserts nothing; otherwise the source is added (the name defaults to the id), or "already exists" is reported; the store invariant `Valid` is kept |
| WebServer.PostedSourceNamed | web_server.py:165-172 | a source added through the route has a non-empty name and no leads yet |
| WebServer.DeleteChatSource | web_server.py:180-187 | the source is removed, reporting whether it existed; the store invariant `Valid` is kept |
| WebServer.ActionEffect | web_server.py:207-217 | approve → "approved", reject → "rejected", edit → "pending" with the edited text; any other action has no effect |
| WebServer.HandleResponseAction | web_server.py:200-219 | a known action updates the response and succeeds; any other action leaves `message` unbound, so the route fails and the store is unchanged |
| WebServer.ActionEdits | web_server.py:207-217 | only an edit with a non-empty text replaces the stored edit; every action sets its status |
| DotEnv.ParseEnvLine | main.py:59-65 | a line is skipped iff it is empty after strip, starts with "#" or has no "="; otherwise the key holds no "=" and the value no "#", both stripped |
| DotEnv.EnvLineComment | main.py:59-65 | for `k=v#c` (no "=" in `k`, no "#" in `v`, a key that is not blank and does not start with "#"): the pair is the stripped `k` and the stripped `v`; the comment is cut whatever it holds |
| DotEnv.EnvLinePlain | main.py:59-65 | for `k=v` with no "#" anywhere in `v` and the same conditions on `k`: the pair is the stripped `k` and the stripped `v` |
| DotEnv.KeyValue | main.py:62-65 | the key is stripped and holds no "="; the value is stripped and holds no "#" |
| DotEnv.EnvLineRoundTrip | main.py:59-65 | a line "key=value" with a stripped key free of "=" and not starting with "#", and a stripped value free of "#" (it may hold "="), parses back to that pair |
| DotEnv.CommentStripped | main.py:60-61 | a line starting with "#" still starts with "#" after strip |
| DotEnv.SkippedLines | main.py:60-61 | comments and lines without "=" are skipped |
| DotEnv.Entries | main.py:59-65 | one parse result per line, in order |
| DotEnv.LoadedStops | main.py:57-68 | once an assignment has raised, the later lines change nothing |
| DotEnv.LastWriteWins | main.py:59-65 | after a complete load, a key holds the value of the last line that sets it |
| DotEnv.Untouched | main.py:59-65 | a key that no line sets keeps its previous value |
| DotEnv.SkippedLineIgnored | main.py:60-61 | a skipped line changes nothing |
| DotEnv.Environ.constructor | main.py:65 | the environment starts as given |
| DotEnv.Environ.Put | main.py:65 | `os.environ[key] = value` succeeds iff the key is non-empty and holds no "=", and neither key nor value holds a NUL; otherwise nothing changes |
| DotEnv.Environ.LoadEnv | main.py:57-68 | the loop's environment and success flag are those of `Loaded` |
| DotEnv.MissingOf | main.py:73-76 | a name is listed iff it is required and unset or empty |
| DotEnv.RequiredMissing | main.py:70-76 | missing names are listed in the order API_ID, API_HASH |
| DotEnv.Mask | main.py:78 | "***" for values of at most 3 characters; otherwise the first 3 characters and "..." |
| DotEnv.MaskDependsOnPrefix | main.py:78 | the mask only reveals the first 3 characters |
| DotEnv.ShownOf | main.py:73-79 | every shown variable is required, set, and shown masked; shown and missing together account for every required name |
| DotEnv.CheckEnvironment | main.py:50-85 | no file, or a failed load, gives false; otherwise the result is true iff API_ID and API_HASH are both set and non-empty, with the missing names and the masks |
| Clock.HourOf | app.py:479 | the hour of a time lies in 0..23 |
| Clock.DayOfNextDay | app.py:468-469 | a day later is the next date at the same hour |

## Left out

- **Telegram.** The Telethon client is left out: `get_entity`, `iter_messages`, `send_message`, `forward_messages`, the event handlers of `watch`, and connecting. Lookups, history and send results are inputs.
- **HTTP.** The request to the model service is left out, including the parsing of its JSON body. An outcome is a status with content, a timeout or another error. Waits are recorded in the trace instead of slept.
- **Randomness.** `random.choice` and `random.randint` are index parameters. Only membership in the template list or the delay range is stated. The 3–15 second pause between leads is left out.
- **Concurrency.** The store's lock, `asyncio.create_task` and the overshoot of the daily limit by concurrent replies are left out. The quota lemmas assume sequential requests.
- **Logging and transport.** Logging and prints, `notify_web_interface`, SocketIO, Flask transport and `jsonify` are left out. An answer is a status and a message, or a server error.
- **Exports.** CSV/JSON file writing in `scan_history` is left out. The rows exported and their de-duplication are modelled.
- **Card fallback.** The plain-text card fallback after a markdown send failure (app.py:767-772) and the `strftime` date format are left out: the date text is an input.
- **Lead-store columns.**
  - Never read or written by the modelled operations: `message_id`, `forwarded` and `sent_at`. The columns `response_timestamp`/`processed_at` are kept.
  - Timestamps are one injected clock. The mix of UTC `CURRENT_TIMESTAMP` and local `datetime.now()` is left out.
  - Ties of `ORDER BY timestamp` are unspecified.
- **Statistics.** The `response_rate` float rounding and `get_analytics_data` (date-string SQL) are left out.
- **Settings.** Only scalar values are modelled: integers, booleans, strings and None. Setting values that are lists or dicts (`str(list)` or nested JSON) are left out.
- **Python built-ins.** Three are narrowed:
  - `Text.ParseInt` accepts an optional sign, digits and surrounding whitespace. It does not accept underscores or non-ASCII digits.
  - `Text.IsDigitString` (the model of `str.isdigit`) accepts the ASCII digits 0-9 only. Python also accepts other Unicode digits such as "²" or "١٢٣".
  - `Text.Lower` lower-cases ASCII and the Cyrillic letters U+0400..U+042F only.
- **NLP.** The natasha lemmatiser and `normalize_text` are left out. Nothing in the scoring path uses them.
- **Keyword file.** `load_keywords_from_file` is left out: it is file I/O followed by `add_keyword`, which is modelled.
- **Unused code.** `keyword_hit` is modelled, but nothing in the bot calls it.
- **Plain GET routes.** The GET branches of the routes only return a store query as JSON; the queries themselves (`get_keywords`, `get_chat_sources`, `get_pending_responses`) are modelled.
- **`main.py`.**
  - `check_requirements`, `kill_existing_processes`, `cleanup_database`, the subprocess launch and monitoring, and the menu are left out.
  - For `.env` reading, only a missing file and `os.environ` rejecting a key or value are modelled as failures. A decoding error of the file is not.
- Forwarding.ClassifyChatRef: a reference such as "-²" or "١٢٣" is numeric-looking to Python's `isdigit` but not to `IsDigitString`, so the model reads it as a name where the code reads it as an id (for "²" `int` then fails and the chat is skipped; for "١٢٣" `int` gives 123); only ASCII digits are modelled.
- Forwarding.ForwardTargetRef: the same ASCII-only `isdigit` applies: a setting such as "١٢٣" is a name target in the model, where the code looks up the id 123, and for "²" the code falls back to "me" after `int` fails.
- Reply.ReplyThrottle.SendAutoReply: it does not model the notification message to the forward target after a send.
- Forwarding.Forwarder.ForwardWithCard: the web notification and the forward of the original message are not modelled. Their failures are swallowed.
- History.ScanHistory: the `forward_with_card` call after each appended row (app.py:871) is not part of it; forwarding one message is modelled on its own by `Forwarding.Forwarder.ForwardWithCard`. The code's `kw_hit` and `is_message_in_timeframe` read the keyword list and `datetime.now()` again for each message, while `ScanConfig` fixes one keyword list and one clock reading for the whole scan.

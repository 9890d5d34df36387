# Scheduled Telegram messages: a Dafny model

This project models the core rules of a Telegram bot that manages message definitions and sends them out through a user account. A definition has a text, image paths, recipients and an optional daily or weekly schedule. Dafny proves what those rules guarantee.

The bot side (`bot_manager.py`) has these parts:

- **The definition store.** It is an insertion-ordered mapping from id to definition. `load_config` reads it, with an empty default. `finalize_add_message` extends it, allocating `MESSAGE_n` ids, and the remove callback shrinks it (module `MessageStore`).
- **The scheduler's due check.** One scan of the store is modelled. The clock is an input (module `Scheduler`).
- **The add-message wizard kept in `user_states`.** Its transitions are written as values (module `Wizard`, functions), and a `BotManager` class holds the sessions, the store and the media files its handlers update. Module `Conversation` runs whole conversations through the transitions. It also proves that every definition the wizard stores has a schedule the scheduler can read.
- **The delivery log as the admin sees it.** This covers the progress refresh rule of `log_to_chat`, the 10-line and 5-line tails, and the 3000-character chunks of the final report (module `Progress`).

The sender side (`telegram_sender.py`) has these parts:

- **`_load_messages_config`.** It reads a parsed YAML document, or else the numbered environment variables, or else the single-message variables (module `SenderConfig`). The loader's loops are methods proved equal to the specification function `Load`.
- **`send_messages` and `_send_message_with_images`.** Recipient classification, counting, log order and the call sequence are functions over an abstract Telegram client (module `Delivery`). The `TelegramSender` class (module `Sender`) implements them with loops over its own log and call trace, and it is proved to produce exactly what those functions say.

Some parts of the system are inputs to the model rather than part of it:

- **The Telegram client** is an oracle `Client`. For the n-th call issued, it decides the answer: the sender's identity, an entity, a list of forum topics, or whether a send raises. Every call is recorded in a trace, in order.
- **The filesystem** is the set of paths that exist.
- **The environment** is a `map<string, string>`.
- **A YAML document** is a value describing what `yaml.safe_load` returned.
- **The current time and weekday** are the strings `"%H:%M"` and `"%A"`.

Some behaviours of the code that are easy to misread:

- Id allocation does not fill gaps: `{MESSAGE_1, MESSAGE_2, MESSAGE_4}` yields `MESSAGE_5`.
- The time check accepts any text with exactly one `:`.
- A "topic not found" is a `ValueError` that falls through to ordinary resolution.
- An empty text with no existing image sends nothing, yet the recipient counts as sent.
- When reading the YAML file raises part-way, the configurations collected before the error are not discarded. They come first, ahead of the numbered environment configurations.
- After a failed captioned album, the separate text message is sent without `reply_to`.

Python's `int()` is modelled as `PyInt`: surrounding whitespace is stripped, then an optional `+` or `-` is followed by ASCII digits.

## Model

| member | source | states |
|---|---|---|
| Basics.Last | bot_manager.py:561 | for k > 0, `s[-k:]` has min(k, \|s\|) elements and is a suffix of `s` |
| Strings.StripIdempotent | bot_manager.py:360 | stripping twice is stripping once |
| Strings.SplitList | bot_manager.py:360 | every item of a comma list is non-blank, already stripped and comma-free |
| Strings.ListRoundTrip | bot_manager.py:360 | items of that kind, comma-joined and read back, come back unchanged and in order |
| Strings.SplitListBlank | telegram_sender.py:116 | a blank or empty string reads as no recipients |
| Strings.SplitOnceSplit | bot_manager.py:132 | `split(c, 1)` yields the first piece of the full split, and the rest begins with the second |
| Strings.PyIntToString | bot_manager.py:401 | `int(str(i)) == i` for every integer |
| MessageStore.Insert | bot_manager.py:403 | assignment keeps the store well formed; a new id goes last, an existing id keeps its place |
| MessageStore.Remove | bot_manager.py:172 | `del` takes out exactly the id's entry and keeps the ids distinct |
| MessageStore.RemoveKeepsOrder | bot_manager.py:159-181 | removing a present id drops exactly its position and keeps every other id in order; an unknown id changes nothing |
| MessageStore.FromPairs | bot_manager.py:54 | the loaded mapping's ids are exactly the document's keys, each once; each key holds the value of its last pair; without repeated keys the ids are the keys in document order |
| MessageStore.LoadConfig | bot_manager.py:50-57 | a missing file, an empty document or a document without `messages` gives the empty store; otherwise the store holds the document's keys, each with its last value, in document order when no key repeats |
| MessageStore.MessageIdInjective | bot_manager.py:399-401 | distinct numbers give distinct ids |
| MessageStore.MessageIdNumber | bot_manager.py:401 | `int(new_id.split('_')[1])` recovers the number of an allocated id |
| MessageStore.TakenRunBound | bot_manager.py:400-401 | at most \|ids\| consecutive candidates can be taken, so the search ends |
| MessageStore.AllocateId | bot_manager.py:398-401 | the id is `MESSAGE_n` for the least n > \|ids\| not taken; it is never an existing id |
| MessageStore.NextIdUnique | bot_manager.py:398-401 | the allocation rule determines one id |
| MessageStore.AllocationSkipsGaps | bot_manager.py:398-401 | with ids 1, 2 and 4 taken the next id is `MESSAGE_5`, not the free `MESSAGE_3` |
| Scheduler.DueIffFires | bot_manager.py:603-612 | due iff the schedule is daily at this minute, or weekly at this minute and weekday; null, empty and unknown-type schedules are never due |
| Scheduler.ScanIds | bot_manager.py:602-612 | a scan dispatches at most one id per stored definition |
| Scheduler.ScanDispatchesDueInOrder | bot_manager.py:602-620 | without a missing key the scan completes and dispatches exactly the due ids, in store order |
| Scheduler.ReadableNeverKeyMissing | bot_manager.py:603-611 | the test never raises a `KeyError` for a schedule, at any minute and weekday, iff the schedule is none, empty, or has a `type` and the `time` (and for weekly the `day`) its type reads |
| Scheduler.ScanStopsAtMissingKey | bot_manager.py:602-629 | a schedule lacking a key the test reads ends the scan: what came before was dispatched, nothing after is |
| Wizard.ValidTimeOneColon | bot_manager.py:373 | the time check accepts exactly the strings with one `:` |
| Wizard.TextStep | bot_manager.py:311-393 | every message keeps the session consistent: a time or day step always finds a schedule to fill |
| Wizard.TimeEntered | bot_manager.py:370-384 | an accepted time keeps the session consistent |
| Wizard.ScheduleButtonStep | bot_manager.py:411-428 | a schedule button leaves a consistent session |
| Wizard.SkipImagesStep | bot_manager.py:432-438 | skipping images leaves a consistent session |
| Wizard.WizardMovesForward | bot_manager.py:311-438 | every step that replaces the session moves to a later state, except an image arriving while images are awaited |
| Wizard.RecipientsStep | bot_manager.py:359-362 | the recipients are the stripped, non-blank comma pieces in order, they read back unchanged, and the schedule type is asked next |
| Wizard.TimeStep | bot_manager.py:370-384 | a time is accepted iff the trimmed text has one `:`; weekly then asks for the day, daily is stored; a rejected time changes nothing |
| Wizard.DayStep | bot_manager.py:386-393 | a day is accepted iff the trimmed text is one of the seven weekday names, and the definition is then stored; otherwise nothing changes |
| Wizard.DailyTime | bot_manager.py:370-384 | after the daily button, an accepted time stores the definition with exactly the schedule `{type: daily, time: <time>}` |
| Wizard.WeeklyTime | bot_manager.py:370-380 | after the weekly button, an accepted time asks for the day and keeps the time |
| Wizard.WeeklyDay | bot_manager.py:386-391 | then an accepted day stores exactly `{type: weekly, time: <time>, day: <day>}` |
| Wizard.CallbackIdAfterPrefix | bot_manager.py:132 | for an `rm_` payload the id is everything after the prefix |
| Wizard.BotManager.constructor | bot_manager.py:183 | no user has a session at the start |
| Wizard.BotManager.Finalize | bot_manager.py:395-407 | the definition is stored under the allocated id after every existing id, every other entry is unchanged, and the user's session ends |
| Wizard.BotManager.Apply | bot_manager.py:311-438 | a handler's effect is exactly its transition: no change, a replaced session, or a finalization |
| Wizard.BotManager.HandleAddMessage | bot_manager.py:232-240 | the admin's session restarts with an empty draft; nothing else changes, and others are ignored |
| Wizard.BotManager.HandleMessage | bot_manager.py:242-393 | the admin's message is the transition of their session, a downloaded image is a new file, and a message without a session changes nothing |
| Wizard.BotManager.HandleScheduleButton | bot_manager.py:409-428 | a button acts only through the schedule-type transition |
| Wizard.BotManager.HandleSkipImages | bot_manager.py:430-438 | only a session waiting for images moves on to recipients |
| Wizard.BotManager.DeleteFiles | bot_manager.py:162-170 | the existing listed files are deleted and counted, each once |
| Wizard.BotManager.HandleRemoveButton | bot_manager.py:128-181 | `all` empties the store and deletes every stored image; a stored id is removed with its images; an unknown id changes nothing |
| Conversation.Step | bot_manager.py:242-438 | every event keeps the session consistent |
| Conversation.Run | bot_manager.py:242-438 | a conversation ends in a stored definition or a consistent session |
| Conversation.RunAppend | bot_manager.py:242-438 | a conversation can be handled in two parts; events after finalizing change nothing |
| Conversation.DailyRun | bot_manager.py:232-426 | when no typed text starts with a command pattern, text, skip, recipients, daily and a valid time store exactly that definition |
| Conversation.WeeklyRun | bot_manager.py:232-438 | when no typed text starts with a command pattern, text, one image, skip, recipients, weekly, time and day store exactly that definition |
| Conversation.StepKeepsReadable | bot_manager.py:370-428 | every step keeps the draft's schedule readable by the scheduler's test and stores only readable schedules |
| Conversation.TimeKeepsReadable | bot_manager.py:370-384 | filling in the time keeps the schedule readable, and a weekly one still has its `type` when the day is asked |
| Conversation.DayKeepsReadable | bot_manager.py:386-393 | filling in the day keeps the schedule readable |
| Conversation.RunKeepsReadable | bot_manager.py:244-438 | a whole conversation keeps the draft's schedule readable and stores only a readable schedule |
| Conversation.WizardDefinitionsSchedulable | bot_manager.py:603-611 | a definition stored by the wizard from a fresh `/add_message` session never makes the scheduler's test raise a `KeyError`, at any minute and weekday |
| Progress.ProgressLog.constructor | bot_manager.py:557 | the log starts empty |
| Progress.ProgressLog.Log | bot_manager.py:558-565 | the line is appended, and the shown text is the newest lines exactly when the count is a multiple of 3 or the line has `=` or `Total` |
| Progress.RefreshEveryThirdLine | bot_manager.py:560 | of any three consecutive lines at least one refreshes |
| Progress.ClosingLinesRefresh | bot_manager.py:560 | the rule line and a `Total:` line always refresh |
| Progress.ProgressShowsNewest | bot_manager.py:561 | the refresh shows the newest min(10, n) lines and ends with the newest |
| Progress.SummaryShowsNewest | bot_manager.py:650 | the scheduled summary is the newest min(5, n) lines and ends with the newest |
| Progress.Chunks | bot_manager.py:581-582 | the chunks concatenate to the text, none is empty or longer than 3000, and all but the last are full |
| Progress.FinalReport | bot_manager.py:578-584 | at most 3000 characters are shown in place; longer logs go out as at least two chunks that concatenate to the log |
| Progress.UnawaitedLogIsLost | bot_manager.py:558-568 | as written, no line is collected and the final report is empty |
| Progress.UnawaitedLogLosesTotals | bot_manager.py:558-568 | a delivery's totals line is lost as written and kept when recorded |
| Progress.RecordedLogKeepsLines | bot_manager.py:632-635 | with every line recorded, the collected log is the logged lines in order and the report shows them |
| SenderConfig.EntryConfig | telegram_sender.py:49-66 | an entry contributes one configuration iff it has recipients or text, with its own text, recipients and image paths (a missing key reads as empty) |
| SenderConfig.GroupConfig | telegram_sender.py:104-109 | a numbered index contributes one configuration iff its message is non-empty or its recipient list is non-empty, with that message (or empty text), those recipients and those paths |
| SenderConfig.SingleFrom | telegram_sender.py:115-131 | the single-message fallback is at most one configuration, with recipients or text |
| SenderConfig.PresentRunBound | telegram_sender.py:76-88 | each present index sets its own variable, so the scan ends within the environment's size |
| SenderConfig.NumberedStep | telegram_sender.py:76-111 | a present index contributes its configuration before the later ones |
| SenderConfig.ReadYamlEntries | telegram_sender.py:48-66 | the entry loop collects `ReadEntries` and stops at the first entry that is not a mapping |
| SenderConfig.ReadNumbered | telegram_sender.py:76-111 | the `while True` loop appends exactly the numbered configurations after those given |
| SenderConfig.ReadYamlFile | telegram_sender.py:42-72 | the `try` block over the YAML file collects, logs and returns early exactly as `ReadYaml` says |
| SenderConfig.LoadMessagesConfig | telegram_sender.py:36-133 | the loader returns the configurations of `Load` and logs its warnings |
| SenderConfig.LoadedConfigsHaveContent | telegram_sender.py:36-133 | every loaded configuration has recipients or text |
| SenderConfig.EntriesHaveContent | telegram_sender.py:48-66 | every configuration kept from YAML has recipients or text |
| SenderConfig.GroupRun | telegram_sender.py:76-88 | the scan reads index after index and every group it keeps has `MESSAGE_i` or `RECIPIENTS_i` set |
| SenderConfig.GroupRunStep | telegram_sender.py:83-111 | a present index is read first and the scan goes on at the next index |
| SenderConfig.Numbered | telegram_sender.py:76-111 | every numbered configuration has recipients or text |
| SenderConfig.RunConfigs | telegram_sender.py:104-109 | the configurations kept from a run of groups all have recipients or text |
| SenderConfig.YamlConfigsHaveContent | telegram_sender.py:43-72 | every configuration read from the YAML file has recipients or text |
| SenderConfig.AssembleHasContent | telegram_sender.py:68-69 | combining YAML, numbered and single-message configurations keeps every one with recipients or text |
| SenderConfig.YamlStageWarnings | telegram_sender.py:70-72 | reading the YAML file logs two lines, the second the fallback notice, iff it raised, and then the environment is read |
| SenderConfig.LaterMessageAgrees | telegram_sender.py:78-95 | setting `MESSAGE_m` changes none of the variables read for the indices before `m`, nor the shared recipients |
| SenderConfig.GroupRunAgree | telegram_sender.py:76-88 | environments agreeing up to the first absent index read the same groups |
| SenderConfig.YamlShadowsEnvironment | telegram_sender.py:68-69 | a YAML file that yields configurations is used alone: the environment is not read and nothing is logged |
| SenderConfig.WarningsExactlyOnYamlError | telegram_sender.py:43-72 | the two warning lines appear iff reading the YAML raised, and configurations kept before the error come first |
| SenderConfig.SingleConfigShape | telegram_sender.py:113-131 | the fallback is empty iff `MESSAGE` is set empty and no recipient is configured; an unset `MESSAGE` gives the default text |
| SenderConfig.NumberedStopsAtGap | telegram_sender.py:76-88 | the scan stops at the first index with neither variable set: later `MESSAGE_m` variables are ignored |
| Delivery.SendWithImages | telegram_sender.py:279-314 | sending only appends to the log and the call trace |
| Delivery.Caught | telegram_sender.py:249-251 | a `ValueError` in the topic path falls through, any other exception fails the recipient |
| Delivery.FindTopic | telegram_sender.py:229-233 | the topic found has the id asked for; none is found iff no fetched topic has it |
| Delivery.FindTopicFirst | telegram_sender.py:229-233 | the topic found is the first fetched topic with that id, as the loop's `break` gives |
| Delivery.DeliverTo | telegram_sender.py:203-270 | handling one recipient only appends to the log and the call trace |
| Delivery.SendMessages | telegram_sender.py:158-277 | a run only appends to the log and the call trace |
| Delivery.AttachmentFilter | telegram_sender.py:284-290 | attached are the given paths that exist and warned about those that do not, both in order, together all of them |
| Delivery.ExistingMember | telegram_sender.py:284 | a path is attached iff it is given and exists |
| Delivery.SendTextOnly | telegram_sender.py:307-314 | without an existing image: one text message with the `reply_to` iff the text is non-empty, otherwise no call; nothing logged |
| Delivery.SendAlbum | telegram_sender.py:286-306 | missing images are warned; one captioned album; only on its failure the fallback line, an uncaptioned album and then the text without `reply_to` |
| Delivery.SendsOnlyTo | telegram_sender.py:279-314 | every call made sends to the given entity |
| Delivery.PlainTokenFetchesNoTopics | telegram_sender.py:205-266 | a token without `:` or starting with `@` is sent as an ordinary token and fetches no topics |
| Delivery.GroupNotIntegerFallsThrough | telegram_sender.py:211-261 | a `group:topic` token whose group is not an integer behaves as an ordinary token |
| Delivery.TopicNotFoundFallsThrough | telegram_sender.py:229-261 | a missing topic, or one without a top message, is not reported: ordinary resolution follows the two calls made |
| Delivery.TopicFoundReplies | telegram_sender.py:229-251 | a found topic is sent to as a reply to its top message; success counts as sent, a `ValueError` falls through, another failure fails |
| Delivery.EmptyTextCountsAsSent | telegram_sender.py:253-266 | with empty text and no image nothing is sent, yet the recipient counts as sent iff it resolves |
| Delivery.EveryTokenCounted | telegram_sender.py:198-270 | blank tokens are skipped and every other token adds one to sent or to failed |
| Delivery.ConfigShape | telegram_sender.py:187-272 | no recipients logs the skip line only; otherwise header first, summary last, counts covering the tokens |
| Delivery.TotalsCoverTokens | telegram_sender.py:273-274 | the totals count every non-blank token of every configuration once |
| Delivery.ClosingLinesRefreshProgress | telegram_sender.py:276-277 | the rule and totals lines always refresh the live progress |
| Delivery.RunStartsWithMe | telegram_sender.py:163-167 | the first call is `get_me` and its answer is the first line logged |
| Delivery.NothingSelected | telegram_sender.py:169-173 | with nothing selected only who it is and "No messages to send." are logged |
| Delivery.RunEndsWithTotals | telegram_sender.py:273-277 | the log ends with the rule line and a totals line whose counts cover the selected tokens |
| Delivery.ScheduledSummaryEndsWithTotals | bot_manager.py:646-650 | the summary after a scheduled post ends with its totals line |
| Sender.TelegramSender.constructor | telegram_sender.py:19-31 | the configurations are those loaded and the loader's warnings are the first log lines |
| Sender.TelegramSender.SendMessageWithImages | telegram_sender.py:279-314 | the log, the calls and the escaping exception are those of `SendWithImages` |
| Sender.TelegramSender.WarnMissing | telegram_sender.py:288-290 | one warning per missing path, in order, and no call |
| Sender.TelegramSender.TryTopic | telegram_sender.py:205-251 | the topic attempt does what `ViaTopic` says |
| Sender.TelegramSender.SendRegular | telegram_sender.py:253-266 | ordinary resolution and sending do what `ViaEntity` says |
| Sender.TelegramSender.Deliver | telegram_sender.py:203-270 | one recipient is handled as `DeliverTo` says |
| Sender.TelegramSender.SendToRecipients | telegram_sender.py:198-270 | the recipient loop produces the log, calls and counts of `SendToAll` |
| Sender.TelegramSender.SendOne | telegram_sender.py:181-274 | one configuration's iteration produces what `SendConfig` says |
| Sender.TelegramSender.SendMessages | telegram_sender.py:158-277 | a whole run produces exactly the log and calls of `Delivery.SendMessages` |

## Left out

- These are not part of this model because they are network or interactive: the authorisation flow (`auth_handler`, the code and password states, `authenticate`), `find_group_id_handler`, and `connect`/`is_user_authorized`/`disconnect`.
- The Telegram client is represented only by the answers of the `Client` oracle. How Telethon's `get_entity`, `send_file` and `send_message` behave is not modelled.
- The oracle's topic list is not cut to the 100 topics requested. The trace records the limit.
- A topic is modelled by its id and top message. A deleted-topic object without `top_message` is a topic whose top message is 0.
- YAML parsing and writing and file I/O are represented by input values. `save_config` writing with `sort_keys=False` is represented by the store keeping insertion order. An `os.remove` that raises is not modelled: an existing file is always removed.
- Loaded YAML values are strings or lists of strings. Other scalar types, `null` entries and `'messages' in` on a non-mapping document are not modelled.
- `scheduler_loop`'s endless loop, its `sleep(60)`, `run_scheduled_task`'s `bot` warning and message sending, and background task creation are timing and I/O. One scan is modelled.
- The album-grouping counter `group_count` with `sleep(1)` is concurrency. Only the appended path is modelled.
- The user interface is left out: menus, buttons, message texts sent to the admin, `list_message_handler` and the dispatch of the send and list callbacks.
- `callback_send_handler` receives a stored definition, whose text is under `text`. The sender reads it through `config.get('message') or config.get('text', '')`. The model passes the selected configuration as a `MessageConfig`.
- Conversation.Run: it hands every event to the wizard. In the program, the handlers for `/start`, `/list_message`, `📋 List Messages`, `/remove_message`, `❌ Remove Message`, `/auth`, `🔑 Auth`, `/add_message` and `➕ Add Message` are registered before `conversation_handler` (bot_manager.py:42-240). They match at the start of the text and stop propagation, so a text that starts with one of these never reaches the wizard. `/add_message` restarts the draft, and `/auth` can replace the session with an authorisation state. Run does not model this interception. Conversation.DailyRun and Conversation.WeeklyRun require that none of their texts starts with one of these patterns.
- `TelegramSender.__init__`'s check of `API_ID`, `API_HASH` and `PHONE_NUMBER` is not modelled.
- Strings.PyInt: Python's `int()` also accepts `_` between digits and non-ASCII digits. The model does not.
- Delivery.SendWithImages, Delivery.DeliverTo, Delivery.SendMessages: their own contracts only say that output grows. What they do is stated by the lemmas beside them and by the `Sender` methods proved equal to them.

## Findings

| source | as written | input that shows it | evidently intended | confidence | as-written member | corrected member |
|---|---|---|---|---|---|---|
| bot_manager.py:558-568 | `log_to_chat` is a coroutine function, handed to `TelegramSender` as its `log_func`. The sender calls `self.log(...)` without `await`, so each call only creates a coroutine that never runs. `logs` stays empty: the progress message never refreshes and the final report is empty. | a delivery that logs `Total: 1 sent, 0 failed` | every logged line is appended to `logs`, as the synchronous logger of `run_scheduled_task` does, and the report shows the whole log | high; not executed | Progress.UnawaitedLogLosesTotals | Progress.RecordedLogKeepsLines |

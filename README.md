# Telegram bulk sender: a verified model of its sending core

This project models the core of `telegram_sender.py`, a console tool that sends
one of several message templates to a list of Telegram users from many
accounts (session files) at once. The model covers:

- **Config**: `get` and `set` on dotted key paths over the nested JSON
  settings (`Settings`).
- **Logger**: the in-memory log buffer capped at 1000 entries, and the
  severity that each line is written to the log file with (`Logging`).
- **DataLoader**: the parsers of the users, messages, API-credential, proxy
  and sent-users files (`Loader`). It also models the spintax and button
  directives of a template, `create_button_markup` and the choice between the
  message's button and the configured one (`Template`).
- **Statistics**: the per-account records, the session and lifetime counters,
  the snapshot that each save attempts to write to the statistics file, and
  the reload of that snapshot (`Stats`).
- **TelegramSender**:
  - the daily quota per account and day (`Quota`);
  - `send_message_to_user` with its error table and flood-wait retries;
  - the `worker` loop;
  - the partition in `start_sending`: already contacted users are dropped,
    the rest are cut into chunks, and task `i` gets session `i`, an API
    credential and a proxy round-robin (`Dispatch`);
  - `stop_sending`.

`Sending` states the whole sending run as functions over a `World`: the
daily counts, the statistics, the active clients, the running flag, the
sent-users log and the delivered messages. The class
`Sender.TelegramSender` holds that state in mutable fields, and each of its
methods is proved to move it exactly as the matching `Sending` function
says. `SenderFacts` proves what a run guarantees:

- what each reply from Telegram does to the counters and statuses;
- that a worker never goes over the daily limit;
- that every user a worker sends to comes from its own chunk, in order;
- that a worker stops for good on a ban or on a flood wait that is too long;
- that every user contacted was in the list and not already logged;
- that the run ends with `is_running` false, and with the active-account
  count at most the number of accounts allowed at once.

Three things the program hands to the outside world are passed in as
parameters:

- **The Telegram client.** `Attempts` holds the flood waits Telegram answers
  with, one per retry, then the final reply. `connect` says whether
  `create_client` succeeds for a task.
- **Random choices.** A `Turn` per user holds whether `stop_sending` has been
  called by then, the message index that `random.choice` picks, and the
  spintax picks.
- **The clock.** One `Clock` serves a whole run: it holds today's date and
  the timestamp that statistics saves write.

Where the project description and the code differ, the model follows the
code:

- A `UserBannedInChannelError` sets the status `banned` but does not count
  a failure (lines 731-734).
- The worker does not set the account `inactive` when it ends (lines
  773-776). Only `cleanup_and_save` does.
- When every user was already contacted, `start_sending` returns with
  `is_running` still true (lines 785-794).
- Sending never refreshes the in-memory `last_activity` (lines 468-484). A
  save writes the current time for active accounts only, so reloading keeps
  the stale time of inactive ones.

## Model

| member | source | states |
|---|---|---|
| Settings.Config.Get | telegram_sender.py:111-120 | the value is found by walking the dotted path through nested objects; any missing key or non-object on the way gives the default (`Lookup`) |
| Settings.Config.Set | telegram_sender.py:122-131 | on success the configuration becomes `Assign` of the old one: missing keys are created as empty objects; the call fails and changes nothing when a value on the path is not an object |
| Settings.LookupAfterAssign | telegram_sender.py:111-131 | after a successful `set`, `get` of the same path returns the value just set |
| Settings.LookupElsewhereAfterAssign | telegram_sender.py:111-131 | after `set`, `get` of any path that leaves the set path before it ends, and is not a prefix of it, returns what it returned before |
| Settings.LookupOtherKey | telegram_sender.py:111-131 | a path whose first key differs from the set path's first key reads the same value before and after `set` |
| Logging.Logger.constructor | telegram_sender.py:137-149 | a new logger holds no entries and has written nothing |
| Logging.Logger.Log | telegram_sender.py:151-174 | the buffer becomes the newest 999 old entries followed by the new one, so it never holds more than 1000; the file gets the message at the severity of its level |
| Logging.Newest | telegram_sender.py:164-166 | `logs[-max_logs:]`: the last `cap` entries, or all of them when there are fewer |
| Logging.NewestAfterAppend | telegram_sender.py:157-166 | appending and then trimming to `cap` equals keeping the newest `cap - 1` and appending |
| Logging.SeverityOf | telegram_sender.py:168-174 | the file severity is error exactly for level "ERROR", warning exactly for "WARNING", and info otherwise |
| Text.Strip | telegram_sender.py:247 | `str.strip()`: no longer than the input, and neither end is whitespace |
| Text.StripOf | telegram_sender.py:247 | stripping whitespace-padded text with trimmed ends gives back that text |
| Text.StripSplits | telegram_sender.py:247 | every string is whitespace + its strip + whitespace |
| Text.Split | telegram_sender.py:113 | `str.split(sep)`: at least one part, no part holds the separator, and joining the parts with it gives back the input |
| Text.SplitJoin | telegram_sender.py:113 | splitting the join of separator-free parts gives back the parts |
| Text.Find | telegram_sender.py:205-206 | the first occurrence of a character at or after a position, or none |
| Text.SplitOnce | telegram_sender.py:301 | `split(':', 1)`: the head holds no separator, and head + separator + tail is the input |
| Text.ParseIntOfIntToString | telegram_sender.py:302 | Python's `int()` reads back the decimal text of every integer |
| Text.NameStartAfterLastSlash | telegram_sender.py:824 | `os.path.basename` starts right after the last '/' |
| Text.BasenameHasNoSlash | telegram_sender.py:824 | an account name never contains '/' |
| Text.BasenameOfJoined | telegram_sender.py:824 | the basename of `dir/name` is `name` |
| Loader.UserOf | telegram_sender.py:246-252 | a users-file line gives no user exactly when it strips to nothing |
| Loader.CollectMembers | telegram_sender.py:246-252 | a value is collected exactly when some line produces it |
| Loader.LoadUsers | telegram_sender.py:236-258 | a missing file gives no users; otherwise the users are the non-blank lines stripped, with one leading '@' removed, in file order |
| Loader.ParseUsersOfNames | telegram_sender.py:236-258 | a file of names, one per line with optional '@' and padding, is read back as exactly those names |
| Loader.LoadMessages | telegram_sender.py:260-286 | a missing file gives no messages; otherwise the stripped text is cut before every line that starts with digits and a dot, and each piece without its number and stripped is a message unless empty |
| Loader.SplitNumbered | telegram_sender.py:272 | `re.split(r'\n(?=\d+\.)')`: the pieces joined with newlines give back the text |
| Loader.FirstBreak | telegram_sender.py:272 | the first newline followed by a numbered line, at or after a position |
| Loader.ParseMessagesOfFile | telegram_sender.py:260-286 | a file written as `1.m1`, `2.m2`, ... on separate lines is read back as exactly `m1, m2, ...` |
| Loader.NumberedPiecesRead | telegram_sender.py:274-280 | every numbered piece yields its message |
| Loader.MessagesTextTrimmed | telegram_sender.py:270 | such a file's text is already stripped |
| Loader.SplitNumberedOfPieces | telegram_sender.py:272 | splitting the newline-join of numbered single-line pieces gives back the pieces |
| Loader.LoadApiData | telegram_sender.py:288-308 | a missing file gives no credentials; otherwise every stripped line with a ':' becomes (`int` of the part before, the rest), lines without ':' are skipped, and one unreadable id makes the result empty |
| Loader.InvalidPrefix | telegram_sender.py:296-308 | once a line is invalid, the whole file reads as invalid, whatever follows |
| Loader.ApiLineOfFormatted | telegram_sender.py:298-302 | the line `id:hash` reads back as (id, hash) |
| Loader.LoadProxies | telegram_sender.py:310-338 | a missing file gives no proxies; otherwise each stripped line with at least four ':'-fields becomes a socks5 proxy; shorter lines are skipped, and an unreadable port makes the result empty |
| Loader.ProxyLineOfFormatted | telegram_sender.py:320-332 | the line `addr:port:user:password` reads back as that proxy |
| Loader.ProxyLineTrimmed | telegram_sender.py:321-322 | such a line is already stripped and contains a ':' |
| Loader.LoadSentUsers | telegram_sender.py:362-381 | a missing log gives the empty set; otherwise the set of its stripped non-blank lines |
| Loader.ParseSentUsersMembers | telegram_sender.py:362-381 | a name is in the set exactly when it is non-empty and some line strips to it |
| Loader.SentUsersComplete | telegram_sender.py:370-373 | every non-blank line's stripped text is in the set |
| Loader.SentUsersSound | telegram_sender.py:370-373 | every member of the set comes from a line |
| Template.ButtonAt | telegram_sender.py:205-206 | a match of `\{button:([^|]+)\|([^}]+)\}` at the start: the text group holds no '|', the URL group no '}', and neither is empty |
| Template.FirstButton | telegram_sender.py:206 | `re.search`: the first position where the button pattern matches, and no match before it |
| Template.ButtonAtDirective | telegram_sender.py:205-206 | a well-formed directive matches exactly up to its closing brace |
| Template.RemoveButtons | telegram_sender.py:213 | `re.sub` with the button pattern: never longer than the input |
| Template.NoButtonInGap | telegram_sender.py:205-213 | no button match starts inside text that holds no `{button:`, even one running on into a following `{` |
| Template.RemoveButtonsWoven | telegram_sender.py:213 | removing the buttons from text, spin groups included, interleaved with directives leaves exactly that text |
| Template.ButtonTemplate | telegram_sender.py:201-223 | a template with directives and any spin groups between them gives the spin result of its text without the directives, and the first directive's stripped text and URL as the button; with no other braces the text goes as it is |
| Template.LiteralTemplate | telegram_sender.py:201-223 | a template without braces is sent as it is, with no button |
| Template.GroupAt | telegram_sender.py:216 | a match of `\{([^}]+)\}` at the start ends at the first '}' and is not empty |
| Template.Choose | telegram_sender.py:218-220 | a spin group is replaced by one of its '|'-alternatives, stripped |
| Template.ChooseAlternative | telegram_sender.py:218-220 | the pick selects exactly that alternative, stripped |
| Template.ChooseSingle | telegram_sender.py:218-220 | a group without '|' is replaced by its own stripped text |
| Template.SpinGroup | telegram_sender.py:216-222 | a group is replaced by its chosen alternative and the rest is processed with the next pick |
| Template.SpinPlain | telegram_sender.py:216-222 | text without '{' passes through the substitution unchanged |
| Template.ButtonMarkup | telegram_sender.py:628-644 | no markup exactly when the text or URL is empty; otherwise the same text, and the URL as given or with "https://" in front, so it always has a web scheme |
| Template.ButtonMarkupIdempotent | telegram_sender.py:635-636 | a URL with a scheme is kept, and applying the markup to its own result changes nothing |
| Template.ChosenButton | telegram_sender.py:663-679 | the message's button wins; otherwise the configured button when both its text and URL are set, and none otherwise |
| Template.MessageButtonWins | telegram_sender.py:663-691 | a message button is used even when its text is empty, and then the message goes without a button |
| Quota.Touch | telegram_sender.py:611-615 | the account and day get an entry; no other account's counts change |
| Quota.TouchKeepsCounts | telegram_sender.py:611-615 | creating the entries changes no count |
| Quota.TouchIdempotent | telegram_sender.py:611-615 | creating the entries twice is the same as once |
| Quota.BumpCounts | telegram_sender.py:619-626 | the count of this account and today goes up by one; every other count is unchanged |
| Quota.BumpNCount | telegram_sender.py:619-626 | k increments raise the count by k |
| Quota.QuotaExhausts | telegram_sender.py:606-626 | starting from zero, sending is allowed after k increments exactly when k is below the limit |
| Sender.TelegramSender.CanSendToday | telegram_sender.py:606-617 | the answer is whether today's count is below the daily limit, and the only change is the created entries |
| Sender.TelegramSender.IncrementDailyCount | telegram_sender.py:619-626 | the only change is today's count for the account going up by one |
| Stats.Ensure | telegram_sender.py:470-478 | an account gets a fresh record, appended to the key order, only when it has none; existing records are kept |
| Stats.SentRecord | telegram_sender.py:468-484 | `add_sent` raises the account's session and lifetime sent counts by one and creates an active record if missing; other records are unchanged |
| Stats.FailedRecord | telegram_sender.py:486-501 | `add_failed` does the same for the failure counts |
| Stats.StatusRecord | telegram_sender.py:503-516 | `set_account_status` changes only the status of the account, creating a record with that status if missing |
| Stats.StatusKeepsTotals | telegram_sender.py:503-516 | a status change leaves the lifetime totals unchanged |
| Stats.TotalsAfterSent | telegram_sender.py:468-484 | the lifetime sent total over all accounts goes up by one and the failed total is unchanged |
| Stats.TotalsAfterFailed | telegram_sender.py:486-501 | the lifetime failed total goes up by one and the sent total is unchanged |
| Stats.RecordCounters | telegram_sender.py:468-516 | each event moves the run counters and the lifetime totals by exactly its own kind |
| Stats.RecordSaves | telegram_sender.py:468-516 | a save is attempted after a sent message exactly when the new lifetime sent count is a multiple of ten, after every failure, and for the statuses banned, flood_wait and inactive; each attempt is the table after the event, and earlier ones are kept |
| Stats.ApplyElsewhere | telegram_sender.py:468-516 | an event on one account leaves every other record as it was |
| Stats.ApplyStatus | telegram_sender.py:468-516 | after an event the status is the one it set, or the previous status (active for a new record) |
| Stats.ResetKeepsTotals | telegram_sender.py:555-567 | cleanup zeroes the session counts and marks every account inactive, keeping the lifetime totals and the key order |
| Stats.SaveOf | telegram_sender.py:439-462 | the snapshot keeps the accounts in order with their lifetime totals; active accounts get the current time as last activity |
| Stats.SaveData | telegram_sender.py:439-462 | the loop builds exactly the snapshot `SaveOf` describes |
| Stats.Restore | telegram_sender.py:410-437 | loading gives inactive records with zero session counts, totals from the file (0 when a field is missing), and no records for a missing file |
| Stats.ReloadAfterSave | telegram_sender.py:410-462 | reloading a save keeps the accounts and lifetime totals, zeroes session counts and records the save time for active accounts |
| Stats.ReloadAfterCleanup | telegram_sender.py:410-567 | reloading what cleanup saved gives back exactly the cleaned-up records |
| Stats.Statistics.constructor | telegram_sender.py:396-437 | the run counters start at zero and the records are those loaded from the file |
| Stats.Statistics.Save | telegram_sender.py:439-462 | appends one snapshot of the records at the given time; nothing else changes |
| Stats.Statistics.AddSent | telegram_sender.py:468-484 | the state becomes the sent event recorded on it: the counters move, an unknown account gets an active record, and a snapshot is saved when the account's lifetime sent count reaches a multiple of ten |
| Stats.Statistics.AddFailed | telegram_sender.py:486-501 | the state becomes the failure recorded on it, with a snapshot saved on every failure of a named account |
| Stats.Statistics.SetAccountStatus | telegram_sender.py:503-516 | the state becomes the status change recorded on it, with a save for flood_wait, banned and inactive |
| Stats.Statistics.UpdateActiveAccounts | telegram_sender.py:518-522 | only the two account counts change |
| Stats.Statistics.CleanupAndSave | telegram_sender.py:555-567 | every record is reset and one snapshot is saved |
| Dispatch.FilterSent | telegram_sender.py:790 | a user is kept exactly when it is in the list and not in the sent set |
| Dispatch.FilterSentOrder | telegram_sender.py:790 | the kept users appear in their original order, and every user skipped was already sent to |
| Dispatch.FilterSentAppend | telegram_sender.py:790 | filtering distributes over concatenation |
| Dispatch.FloorDivIsFloor | telegram_sender.py:804-815 | Python's `//` rounds down, also for negative divisors |
| Dispatch.ChunkSize | telegram_sender.py:804 | each chunk holds at least one user |
| Dispatch.ChunksPartition | telegram_sender.py:804-805 | the chunks, in order, are exactly the users; each holds between 1 and `users_per_account` users, and all but the last are full |
| Dispatch.ChunksFit | telegram_sender.py:799-805 | there are never more chunks than accounts allowed at once |
| Dispatch.EveryChunkTasked | telegram_sender.py:809 | the task loop visits every chunk |
| Dispatch.GuardsUnreachable | telegram_sender.py:809-819 | inside the loop a session always exists and the chunk is never empty, so the two guards never fire |
| Dispatch.BlockIndex | telegram_sender.py:814-815 | the index `i // per % count` of the credential, or of the proxy, is in range |
| Dispatch.RoundRobin | telegram_sender.py:814-815 | within each cycle, the `per` consecutive tasks of block `k` all get credential (or proxy) `k` |
| Sending.Resolve | telegram_sender.py:705-714 | waits up to the threshold are retried; the first longer wait stops with that wait; otherwise the final reply decides, and only a delivery counts as sent |
| Sending.SendStep | telegram_sender.py:646-739 | the statistics stay well formed through one `send_message_to_user` |
| Sending.WorkerStep | telegram_sender.py:744-769 | one iteration of the worker leaves exactly on a stop, an exhausted quota, no messages, or a failure after which the account is banned or in flood wait |
| Sending.WorkerFrom | telegram_sender.py:744-770 | the loop ends at a user within the list for the reason `WorkerStep` gives, or runs to the end |
| Sending.WorkerRun | telegram_sender.py:741-776 | after the worker the account is no longer an active client, and the account counts are unchanged |
| Sending.TasksUpTo | telegram_sender.py:809-832 | at most one task per visited index |
| Sending.RunFrom | telegram_sender.py:837-839 | running the workers changes neither account count |
| Sender.TelegramSender.constructor | telegram_sender.py:573-580 | the sender starts with no daily counts, no clients and not running |
| Sender.TelegramSender.Attempt | telegram_sender.py:648-714 | the outcome is the quota check and then the retry resolution; a delivery carries the processed text and the chosen button markup |
| Sender.TelegramSender.Deliver | telegram_sender.py:691-703 | a delivery bumps today's count, records a sent event, appends the user to the sent log and the message to the outbox |
| Sender.TelegramSender.RecordFailure | telegram_sender.py:705-739 | a refusal or a long flood wait is recorded as its event |
| Sender.TelegramSender.SendMessageToUser | telegram_sender.py:646-739 | the new state and the result are exactly `SendStep` of the old state |
| Sender.TelegramSender.Iteration | telegram_sender.py:744-769 | one loop iteration moves the state as `WorkerStep` says |
| Sender.TelegramSender.Worker | telegram_sender.py:741-776 | the new state and exit are exactly `WorkerRun` of the old state |
| Sender.TelegramSender.Launch | telegram_sender.py:809-832 | the jobs are exactly `TasksUpTo`, and each connected account is registered as active |
| Sender.TelegramSender.Register | telegram_sender.py:824-826 | the account is registered as an active client and its status set to active |
| Sender.TelegramSender.RunWorkers | telegram_sender.py:837-839 | the workers run one after another as `RunFrom` says |
| Sender.TelegramSender.StartSending | telegram_sender.py:778-842 | the new state is exactly `StartRun` with the sent-users log as loaded |
| Sender.TelegramSender.SendChunks | telegram_sender.py:796-842 | the new state is exactly `SendChunks` of the remaining users |
| Sender.TelegramSender.StopSending | telegram_sender.py:844-846 | only the running flag changes, to false |
| SenderFacts.SendOutcome | telegram_sender.py:646-739 | a message counts as sent exactly on delivery. An exhausted quota changes no statistics. A long flood wait sets flood_wait, a ban sets banned, and the other errors count a failure. Sent log, outbox and all counters move accordingly |
| SenderFacts.SendDaily | telegram_sender.py:650-697 | only this account's count for today moves, by one exactly on delivery, and a delivery happens only below the limit |
| SenderFacts.SendElsewhere | telegram_sender.py:646-739 | other accounts' records and daily counts are untouched |
| SenderFacts.FloodRetriesSameUser | telegram_sender.py:705-714 | short flood waits are retried for the same user and end in one delivery |
| SenderFacts.FloodTooLongIff | telegram_sender.py:705-710 | the send ends in flood_wait exactly when some wait in the chain exceeds the threshold |
| SenderFacts.WorkerDelivers | telegram_sender.py:744-769 | the users a worker delivers to are an ordered subsequence of its chunk up to where it stopped; the sent count and today's count grow by that many and stay within the daily limit |
| SenderFacts.WorkerElsewhere | telegram_sender.py:741-776 | a worker leaves every other account's records and counts untouched |
| SenderFacts.WorkerKeepsStatus | telegram_sender.py:741-776 | a worker that does not stop for its account keeps its status, and never sets it inactive |
| SenderFacts.WorkerStopsOnLongFlood | telegram_sender.py:705-762 | a flood wait over the threshold stops the worker at that user with status flood_wait, no failure counted |
| SenderFacts.WorkerStopsOnBan | telegram_sender.py:731-762 | a ban stops the worker at that user with status banned, no failure counted |
| SenderFacts.LaunchJobs | telegram_sender.py:809-832 | the jobs are the connected tasks, in index order, each with its session, basename and chunk |
| SenderFacts.AllConnected | telegram_sender.py:809-832 | when every client connects, task `k` works on chunk `k` |
| SenderFacts.ActivateAllState | telegram_sender.py:823-826 | launching registers exactly the connected accounts and changes nothing about sending |
| SenderFacts.RunDelivers | telegram_sender.py:837-839 | after all workers, everyone newly logged comes from some job's chunk, and no job's account is still active |
| SenderFacts.StartEarly | telegram_sender.py:781-794 | with no users, messages or sessions nothing changes; with everyone already sent to, only the running flag is set |
| SenderFacts.StartJobs | telegram_sender.py:798-832 | there are at most `max_accounts` jobs, each with a non-empty account name and users from the remaining list |
| SenderFacts.ChunksSettle | telegram_sender.py:796-842 | the run ends not running, with at most `max_accounts` active and the number of sessions as total, and leaves no new active client |
| SenderFacts.StartFacts | telegram_sender.py:778-842 | a run only appends to the sent log, every user it adds was in the list and not sent before, and it ends as `ChunksSettle` says |

## Left out

- The Telegram client (`create_client`, `send_message`, `disconnect`) is not modelled. Its results are the `connect` and `Attempts` parameters, and each Telethon error is one reply of the closed `Reply` type.
- The concurrency of `asyncio.gather` is not modelled: the workers run one after another in task order. Interleavings of workers that share the statistics and the daily counts are not captured. `stop_sending` is modelled as a per-user stop flag from the `Turn` parameter.
- Sleeps and delays (`asyncio.sleep`, the flood-wait sleep, `random.uniform`) have no effect on state and are left out.
- `random.choice` and `add_random_emoji` come from parameters (`Turn`, `Attempts.spin`). The emoji that `add_random_emoji` inserts is not modelled, so the delivered text is the spintax result.
- `get_success_rate` and `get_total_success_rate` are left out because they are floating-point divisions. `get_runtime` and `start_tracking` are left out because they read the clock.
- File I/O is modelled as file contents: a missing file is `None`, and otherwise the file is a list of lines or the whole text. Encoding errors are not modelled. `save_sent_user` is the append to the sent log. The JSON files are values of the `Json` and `StoredFile` types.
- `load_sessions` lists a directory and is left out; the sessions are a parameter.
- `Config.__init__`, `load_config`, `_deep_merge` and `save_config` read and write the settings file and are left out; the configuration is a `Json` value.
- The `Interface` class, `create_default_files` and `main` are the console front end and are not part of this model.
- The logger's convenience wrappers (`success`, `error`, `warning`, `info`, `button_info`) only call `log` with a fixed level and colour and are not modelled separately. The colour codes are opaque strings.
- Settings.Config.Set: the in-place descent through nested dictionaries is modelled on immutable values. `Assign` rebuilds the path, so aliasing between nested dictionaries is not captured.
- Sender.TelegramSender.StartSending: once the early returns at lines 781-794 are passed and users remain, it requires `Sending.Startable`: at least one API credential, nonzero `accounts_per_api`, nonzero `accounts_per_proxy` when there are proxies, and `max_concurrent_accounts` above zero. With other values the source raises `ZeroDivisionError` or `ValueError` at lines 804-815, or with a negative `max_concurrent_accounts` builds no task, and the model does not cover those runs. Runs that stop at an early return carry no such requirement.
- Stats.Statistics.Save: a failed write is logged and swallowed (lines 455 and 461-462), for example a stats path with no directory part, where `os.makedirs('')` raises, as with the default `account_stats.json`. The model treats every save attempt as written, and `Stats.ReloadAfterSave` and `Stats.ReloadAfterCleanup` speak of a save that reached the file.
- Text.NameStartAfterLastSlash: only the POSIX separator '/' is modelled. On Windows `os.path.basename` (line 824) also splits on a backslash and after a drive prefix such as `C:`, so account names can differ there. `Text.BasenameHasNoSlash` and `Text.BasenameOfJoined` share this limit.
- Text.Basename: splits on POSIX separators only, for the same reason as `Text.NameStartAfterLastSlash`.
- Loader.SplitNumbered: a numbered line is recognised by ASCII digits only (`Loader.DigitRun`), where `\d` at lines 272 and 278 matches every Unicode decimal digit. A message file numbered with other digits is split differently.
- Loader.FirstBreak: looks for ASCII digits only, for the same reason as `Loader.SplitNumbered`.
- Loader.LoadMessages: strips the number prefix only when it is made of ASCII digits (line 278), for the same reason as `Loader.SplitNumbered`.
- Text.ParseInt: it accepts ASCII digits only, where Python's `int()` also accepts other Unicode decimal digits.
- Sending.WorkerRun: it does not model the broad `except Exception` around the worker loop (line 771) as such. The one exception the modelled steps can raise, `IndexError` from `random.choice` on an empty message list (line 754), is modelled as the `NoMessages` exit, which leaves the loop the same way; `start_sending` never passes an empty list (line 781). Exceptions from the Telegram client outside `send_message_to_user`'s own handlers are not modelled.
- Sending.StartRun: one `Clock` serves the whole run, while the source reads `datetime.now()` on every quota check and bump (lines 608 and 621) and on every statistics save (line 445). A run that crosses midnight starts a new day's quota in the source, so a worker can send up to `daily_limit` messages on each day, and successive saves carry different times. The model captures neither.
- Sending.TasksUpTo: every connected account is registered (`ActivateAll`) before any worker runs. In the source, the worker of task `i` is started at line 829 and can run during the `await create_client` of later tasks (line 823), so the records and snapshots saved during a run can differ in which accounts they hold and in their statuses.
- Loader.LoadSentUsers: a missing sent-users log whose configured path has no directory part (for example `sent.txt`) makes `os.makedirs('')` raise `FileNotFoundError` at line 379, outside any `try`. The error leaves `load_sent_users` and `start_sending` with `is_running` already true (line 785). The model gives the empty set and goes on sending. `Sender.TelegramSender.StartSending` does not cover that run. The default `sent_users/sent_users.txt` is not affected.
- The guards at lines 810-811 and 818-819 are proved unreachable (`Dispatch.GuardsUnreachable`) and are left out of the task loop.

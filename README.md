# enforsbot core in Dafny

A verified model of the logic inside `EnforsBot` (enforsbot.py), a small
chat bot. Adapter threads (Twitter, Telegram) hand it user messages and
location updates. The model covers:

- **Location tracking**, in `Location` (values) and `Bot.EnforsBot`
  (the class):
  - An arrival always moves the bot to the new place and logs an
    `arrived` row.
  - A departure is logged only when the user is not currently arrived,
    or is leaving the place they arrived at. Otherwise the stale notice
    is dropped.
  - The log (the SQLite table LOCATION_HISTORY) is a `seq<Record>` that
    only grows.
- **Reply selection**, in `Dispatch`:
  - The text is lower-cased.
  - Each rule of the ordered table `self.responses` whose pattern
    matches overwrites the running reply, so the *last* match wins.
  - A handler's exception ends selection.
  - Text that no rule matches gets "I'm afraid I don't understand.".
  - `SelectResponse` is the loop. It is proved equal to the function
    `Outcome`, and the ordering properties are proved about `Outcome`.
  - The `response_threads` table routes each reply.
- **Patterns**, in `Regex`: a concrete matcher for the fragment of Python
  regular expressions the table uses.
  - Supported: literal characters, `.` (any character but a newline)
    and postfix `*`.
  - The match is anchored at the start of the text, as `re.match` is.
  - Lemmas turn each rule of the table into a plain statement: "starts
    with `ping`", "`good night` occurs on the first line". Another lemma
    proves that the rule "LocationUpdate .*" can never fire on
    lower-cased text.
- **Elapsed-time text**, in `Elapsed`: `get_datetime_diff_string` and
  `get_possible_plural`, over whole microseconds, the resolution of
  `datetime`.
- **One iteration of `main_loop`**, in `Bot`:
  - `Classify` sorts a message by kind. `Next` gives the new state, or
    the exception that ends the loop.
  - `EnforsBot.Step` is proved against `Next`, and the lemmas about
    `Next` state what one message can change.

Outside effects are parameters (`Dispatch.Environment`):
- the clock (`now`, in whole microseconds);
- the address the UDP socket reports, or `None` when connecting raises;
- the decoded output of `syscond status -n`, or `None` when the command
  cannot run or its output is not UTF-8.

Python exceptions are `Err` values of `Types.Result`:
- a missing payload field or routing entry is `MissingKey`;
- `.lower()` on a non-string is `NotText`;
- unpacking the `None` of an empty history is `EmptyHistory`;
- a handler that reads `.data` from a string is `HandlerGotText`;
- an OSError of the socket in `respond_ip` is `NoNetwork`;
- a FileNotFoundError or UnicodeDecodeError in `check_syscond` is
  `SyscondFailed`.

Points of the code the model keeps as written:
- A handler receives the lower-cased text.
- The default reply is "I'm afraid I don't understand.".
- `main_loop` catches no exception: a KeyError for an unknown sender, the
  TypeError of "locate" over an empty history, or an exception from the
  socket or the subprocess ends the loop. `Next` returns `Err` with the
  state unchanged.
- Every matching rule overwrites the reply, so the last match wins.

## Model

| member | source | states |
|---|---|---|
| Text.Lower | enforsbot.py:105 | `text.lower()`: same length, no upper-case letter left, upper-case letters shifted to lower case, everything else kept |
| Regex.UpperLiteralNeverMatchesLowerText | enforsbot.py:105-110 | a pattern with an unstarred upper-case letter never matches a text without upper-case letters |
| Regex.PlainPatternIsPrefixTest | enforsbot.py:108-110 | a pattern without `.` or `*` matches exactly the texts that start with it |
| Regex.PlainThenDotStarIsPrefixTest | enforsbot.py:108-110 | `w.*` matches exactly the texts that start with w |
| Regex.ContainsPatternTest | enforsbot.py:108-110 | `.*w.*` matches exactly the texts in which w occurs before the first newline |
| Regex.PrefixThenContainsTest | enforsbot.py:108-110 | `v.*w.*` matches exactly the texts that start with v and hold w after it on the first line |
| Regex.DotStarMatch | enforsbot.py:108-110 | a leading `.*` matches when the rest matches after some newline-free prefix, and only then |
| Regex.LiteralsMatch | enforsbot.py:108-110 | literal characters match exactly when the text starts with them and the rest matches what follows |
| Elapsed.Plural | enforsbot.py:241-245 | the word itself exactly when the count is 1, otherwise the word with "s" |
| Elapsed.Breakdown | enforsbot.py:212-229 | future exactly when d1 > d2; "just now" exactly below 60 seconds (in microseconds); the shown unit is the whole number elapsed, and its remainder is below 60 minutes or 24 hours |
| Elapsed.Decimal | enforsbot.py:226-235 | `%d` writes at least one digit and no leading zero |
| Elapsed.DecimalRoundTrip | enforsbot.py:226-235 | reading back the digits `%d` writes gives the number |
| Elapsed.Quantity | enforsbot.py:226-235 | definition of `"%d %s" % (n, plural)`; specified by Decimal, DecimalRoundTrip and Plural |
| Elapsed.Render | enforsbot.py:223-238 | definition of the four format strings of the result; specified by DiffString and the examples |
| Elapsed.DiffString | enforsbot.py:210-238 | "in the future" when d1 > d2, "just now" below a minute, otherwise text ending in " ago" |
| Elapsed.DayAndHourExample | enforsbot.py:223-227 | 90061 seconds is "1 day, 1 hour ago" |
| Elapsed.HoursAndMinutesExample | enforsbot.py:228-232 | 7500 seconds is "2 hours, 5 minutes ago" |
| Elapsed.SubSecondExample | enforsbot.py:214-237 | from 10.9 s to 70.1 s is "just now", while from 10 s to 70 s is "1 minute ago" |
| Location.Update | enforsbot.py:133-168 | an arrival sets location and arrived and logs one `arrived` row; an accepted departure logs one `left` row, clears arrived and keeps location; a departure from elsewhere while arrived changes nothing; earlier rows are kept; `Consistent` is preserved |
| Location.RunAppendsOnly | enforsbot.py:147-163 | over any sequence of updates, earlier rows never change and each update adds at most one row |
| Location.RunKeepsConsistent | enforsbot.py:142-166 | arrived holds only when the last row is the arrival at the current location, after any sequence of updates |
| Location.Initial | enforsbot.py:49-50 | the start state is not arrived, has no location and keeps the table's rows |
| Location.ArriveThenLeaveExample | enforsbot.py:142-166 | arriving at Home and then leaving it logs both rows and ends not arrived |
| Location.StaleDepartureExample | enforsbot.py:154-158 | leaving Work after arriving at Home is dropped |
| Location.RespondLocation | enforsbot.py:180-196 | raises exactly on an empty history |
| Location.ReportWhileArrived | enforsbot.py:189-192 | while arrived, the report is "Enfors arrived at <location> <elapsed>." |
| Location.ReportAfterDeparture | enforsbot.py:193-196 | after an accepted departure, the report is "Enfors left <location> <elapsed>." |
| Location.StoredText | enforsbot.py:187-194 | definition of `"%s"` of a location read back from the table: a bool comes back as the INTEGER 1 or 0; specified by BoolLocationExample |
| Location.BoolLocationExample | enforsbot.py:147-190 | an arrival at the location True is reported as "Enfors arrived at 1 just now." |
| Regex.Matches | enforsbot.py:108-110 | definition of `re.compile(pattern).match(text)` as anchored backtracking over the compiled items; specified by the pattern lemmas above |
| Dispatch.Invoke | enforsbot.py:113-114 | definition of calling a handler: `respond_ip` (124-130), `handle_incoming_location_update` on a str (133-134), `respond_location` (170-196), `respond_syscond` (199-207); specified by RaisingActions, ResponsesNeverSilent and the locate lemmas |
| Dispatch.Perform | enforsbot.py:110-114 | definition of a rule's action: a fixed reply, or a handler call; specified by RaisingActions and ResponsesNeverSilent |
| Dispatch.LastMatchBefore | enforsbot.py:107-111 | the rule found matches and no later rule does; none found means no rule matches |
| Dispatch.FirstFailureBefore | enforsbot.py:113-114 | the rule found matches and raises, and no earlier rule does both; none found means no rule does |
| Dispatch.Outcome | enforsbot.py:103-114 | reply selection raises exactly when some matching rule's action raises |
| Dispatch.SelectResponse | enforsbot.py:103-114 | the loop yields exactly `Outcome` |
| Dispatch.NoMatchGivesDefault | enforsbot.py:103-105 | with no matching rule the reply is "I'm afraid I don't understand." |
| Dispatch.LastMatchWins | enforsbot.py:107-114 | without exceptions, the reply is the action of the last matching rule |
| Dispatch.FirstFailureWins | enforsbot.py:113-114 | the first raising rule's exception is the result, even when later rules match |
| Dispatch.ErrorIsFirstFailure | enforsbot.py:113-114 | every exception of reply selection comes from a matching rule's action |
| Dispatch.RaisingActions | enforsbot.py:20-34 | the actions that can raise, each with its exception: the "LocationUpdate .*" handler always, "locate" over an empty history, the three IP rules when the socket fails, "syscond" when the command fails |
| Dispatch.LocationUpdateRuleIsDead | enforsbot.py:31 | the rule "LocationUpdate .*" never matches a lower-cased text |
| Dispatch.ResponsesFailures | enforsbot.py:20-34 | reply selection raises only the empty-history error for "locate", the socket error for an IP question, or the subprocess error for "syscond" |
| Dispatch.NoRuleRaises | enforsbot.py:20-34 | no rule raises on lower-case text unless it is "locate" over an empty history, an IP question while the socket fails, or "syscond" while the command fails |
| Dispatch.NoIpRuleMatches | enforsbot.py:21-23 | a text starting with neither "i" nor "w" matches none of the three IP rules |
| Dispatch.OtherLettersMissRaisingRules | enforsbot.py:21-33 | a lower-case text starting with none of "i", "w", "l", "s" matches no rule whose action can raise |
| Dispatch.NoRuleRaisesOnOtherLetters | enforsbot.py:20-34 | such a text raises nothing, whatever the history and the environment |
| Dispatch.LocateMissesOtherRaisingRules | enforsbot.py:21-33 | a lower-case text starting with "locate" matches the locate rule and no other rule whose action can raise |
| Dispatch.LocateWithHistoryRaisesNothing | enforsbot.py:32 | "locate" over a non-empty history raises nothing, even when the socket or subprocess would fail |
| Dispatch.IpRule | enforsbot.py:21 | matches exactly when the text starts with "ip" |
| Dispatch.PingRule | enforsbot.py:24 | matches exactly when the text starts with "ping" |
| Dispatch.ThanksRule | enforsbot.py:29 | matches exactly when the text starts with "thank" |
| Dispatch.TestRule | enforsbot.py:30 | matches exactly when the text starts with "test" |
| Dispatch.LocateRule | enforsbot.py:32 | matches exactly when the text starts with "locate" |
| Dispatch.SyscondRule | enforsbot.py:33 | matches exactly when the text starts with "syscond" |
| Dispatch.IpQuestionRule | enforsbot.py:22 | "what.* ip .*": starts with "what", " ip " follows on the first line |
| Dispatch.AddressQuestionRule | enforsbot.py:23 | "what.*address.*": starts with "what", "address" follows on the first line |
| Dispatch.GoodMorningRule | enforsbot.py:25 | matches exactly when "good morning" occurs on the first line |
| Dispatch.GoodAfternoonRule | enforsbot.py:26 | matches exactly when "good afternoon" occurs on the first line |
| Dispatch.GoodEveningRule | enforsbot.py:27 | matches exactly when "good evening" occurs on the first line |
| Dispatch.GoodNightRule | enforsbot.py:28 | matches exactly when "good night" occurs on the first line |
| Dispatch.PingMissesLaterRules | enforsbot.py:24-34 | no rule after "ping" matches "ping" |
| Dispatch.PingGetsPong | enforsbot.py:24 | "Ping" is answered "Pong." |
| Dispatch.ThanksIsAlwaysWelcome | enforsbot.py:29-34 | every lower-case text starting with "thank" is answered "You're welcome.", whatever greeting it holds |
| Dispatch.ThanksOverridesGoodNight | enforsbot.py:28-29 | a lower-case text starting with "thank" and holding "good night" on its first line matches both the good-night and the thanks rule, and the later thanks rule gives the reply |
| Dispatch.ResponsesNeverSilent | enforsbot.py:116-121 | with this table, selection that does not raise always yields a reply, never None |
| Dispatch.LocateOnEmptyHistoryRaises | enforsbot.py:187 | "locate" over an empty history raises the unpacking error |
| Dispatch.LocateReportsLastRow | enforsbot.py:32 | "locate" over a non-empty history is answered with the report on the last row |
| Dispatch.ResponseThread | enforsbot.py:42-47 | "TwitterStreams" goes to "TwitterRest", "Telegram" to "Telegram", and any other sender raises KeyError |
| Bot.LocationStep | enforsbot.py:133-168 | definition of `handle_incoming_location_update` on values: KeyError for a missing `location` or `arrived`, otherwise `Location.Update`; specified by NextKeepsConsistent and NextAppendsOnly |
| Bot.UserStep | enforsbot.py:97-121 | definition of `handle_incoming_user_message` on values; specified by UserMessageErrors and UserMessageAnswered |
| Bot.Next | enforsbot.py:70-80 | definition of one iteration of `main_loop`; specified by the lemmas below |
| Bot.Classify | enforsbot.py:70-80 | each message kind is sent to exactly one branch; unknown codes to the unsupported one |
| Bot.NextKeepsConsistent | enforsbot.py:142-166 | no message breaks the link between arrived and the last history row |
| Bot.NextAppendsOnly | enforsbot.py:70-80 | one message adds at most one history row and one outgoing message, never both, and changes nothing earlier |
| Bot.NextSeparatesKinds | enforsbot.py:70-80 | only location updates move the location state; only user messages send; start notices and unknown kinds change nothing |
| Bot.UnknownSenderRaises | enforsbot.py:73-75 | a user message from a thread without a routing entry raises KeyError |
| Bot.UserMessageErrors | enforsbot.py:97-114 | a user message raises only for an unknown sender, a missing `user` or `text`, a non-string text, "locate" over an empty history, or a failing socket or subprocess |
| Bot.UserMessageAnswered | enforsbot.py:116-121 | a well-formed user message whose rules' socket or subprocess succeed is answered with one message from "Main" to the sender's response thread, for the same user, holding the selected reply |
| Bot.TelegramPingIsAnswered | enforsbot.py:97-121 | user x saying "Ping" on Telegram gets exactly one message from "Main" to the Telegram thread, carrying "Pong." for x |
| Bot.EnforsBot.constructor | enforsbot.py:49-50 | the bot starts with no location, not arrived, over the table's rows, having sent nothing |
| Bot.EnforsBot.HandleIncomingLocationUpdate | enforsbot.py:133-168 | KeyError for a missing `location` or `arrived` with nothing changed; otherwise the state becomes `Location.Update` of the old one; nothing is sent |
| Bot.EnforsBot.HandleIncomingUserMessage | enforsbot.py:97-121 | location state unchanged; the outbox grows by exactly the messages `UserStep` gives, or stays the same on an exception |
| Bot.EnforsBot.Step | enforsbot.py:70-80 | the fields after one message are exactly `Next` of the fields before, and an exception leaves them unchanged |

## Left out

- Threads, `self.config.lock`, `recv_message` and the endless `while True` of `main_loop` (lines 63-94): only one iteration is modelled, as `Step`/`Next`.
- `start`, `start_all_threads` and `main`: they start adapter threads, and those threads are not part of this model.
- SQLite: LOCATION_HISTORY is an in-memory `seq`. The connection, cursors and transaction rollback are not modelled, and a row's `time` is an integer. The round trip through the table is modelled only for the two kinds of location `Types.Value` has: a str comes back as itself, a bool as 1 or 0 (`Location.StoredText`).
- `respond_ip` and `respond_syscond`/`check_syscond`: the socket and the subprocess are not modelled. Their results are `Environment` fields, either the address or output, or a failure. The kind of OSError and the text of the subprocess output are not modelled.
- Dispatch.Environment: one socket result and one syscond result serve every handler call made for a message. In the code each matching IP rule calls `respond_ip` again and opens a new socket. "what ip address" matches two IP rules, so it connects twice. If the first connect succeeds and the second raises, the code raises OSError; the model answers with the address. Dispatch.NoRuleRaises and Bot.UserMessageAnswered therefore take one socket outcome for all the IP rules of a message.
- `self.config.send_message` (eb_config is not part of this model): sending is appending to `outbox`, and its failure modes are not modelled. Nothing here checks that a response thread is registered: `start_all_threads` starts "Twitter" and "Telegram", while "TwitterStreams" replies go to "TwitterRest".
- Dispatch.Responses: relies on Python 3.7 or later, where a dict iterates in insertion order. The file dates from 2015-2016; on Python 3.5 and earlier the order of str keys can change from run to run, and so can the winner among overlapping rules (as in ThanksOverridesGoodNight).
- Printing (lines 71, 80, 152, 165).
- Regex.Matches: handles only literal characters, `.` and postfix `*`, which is all the table uses; other regular-expression syntax is not modelled.
- Text.Lower: lower-cases ASCII letters only; Python's `str.lower` also maps other Unicode letters.
- Elapsed.Breakdown: counts whole microseconds, as `datetime` does, and divides exactly. `total_seconds()` is a float, and its rounding is not modelled. It can matter only within a microsecond of a minute boundary, and only for spans of several centuries.
- Types.Value: a payload value is taken to be a string or a boolean. The adapter threads that build the payloads (eb_telegram, eb_twitter) are not part of this model, and other Python values are not modelled.
- Dispatch.Invoke: `handle_incoming_location_update` returns None when it gets a message. As a rule action it gets a string and raises, so no action of the table produces a None reply.

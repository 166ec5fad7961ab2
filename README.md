# SMS-verification rental bot: the watcher, the parsers and the rental gate

`bot.py` is a Telegram bot that rents Vietnamese virtual phone numbers from
the sms-verification-number.com handler API and relays the one-time
password (OTP) that arrives on them. This project models the sequential
core of that bot in Dafny and proves properties of it:

- `auto_check_otp`, the watcher: it admits itself through the
  `active_checks` registry under the key `"{chat_id}_{activation_id}"`. It
  then walks the backoff schedule `[5, 5, 7, 7, 10, 10, 15, 15, 20]`,
  querying the status once per interval. It stops on the first `STATUS_OK…`
  or terminal status, sends the timeout notice from the `for`'s `else`, and
  removes its key in the `finally`.
- The vendor's colon-delimited text protocol: `safe_api_call`'s error
  mapping, `get_balance`'s prefix check, `get_services_vn`, `get_number`
  and `get_status`.
- The watcher's status classification, and the different classification
  of the manual check `cmd_check`.
- `handle_text`: the rental command parser
  (`strip().lower().split()`, service and operator defaulting to `"any"`)
  and the one-order-per-chat gate. The order is stored before the watcher
  starts.

Layout:

- `wrappers.dfy`: `Option`.
- `py_str.dfy`, module `PyStr`: the Python `str` operations the bot uses,
  with Python's semantics. These are `strip` (Python's whitespace set),
  `split(":")`, `split(":", 1)`, `split()`, `splitlines()` (Python's
  line-break set), `str(int)`, `lower()` and `in`.
- `vendor.dfy`, module `Vendor`: API replies, parsers and classifiers.
- `bot.dfy`, module `Bot`: the process state as the class `BotState`. It
  holds `user_orders`, `active_checks` and the chat messages sent. Its
  methods are the watcher, `handle_text` and `cmd_check`.

Each vendor call is a `Response` passed in as a parameter. The watcher gets
one reply per status query, and the replies after its last query are never
read. Each chat message is appended to `log` as an abstract `Reply` kind.
`datetime.now()` is the parameter `now`. The sleeps add up in `waited`.

The watcher is the method `BotState.PollUntilDone`. Its `ensures` ties the
run it returns and the messages it sends to a specification function,
`Watch`. The properties of `Watch` are lemmas:

- bounds;
- stopping at the first verdict, and its converse;
- the if-and-only-if of the timeout;
- one message unless an exception ended the run;
- a worked run.

A failed status query reads as `"ERROR"`, and polling simply goes on:
`bot.py` sends no notice about slow connections and sets no ceiling on
consecutive errors.

## Model

| member | source | states |
|---|---|---|
| Vendor.HttpErrorMessage | bot.py:118-125 | code 429 gives the too-many-requests message, a code of 500 or more the server-error message, any other code the busy message, each as an if-and-only-if |
| Vendor.ApiCall | bot.py:110-140 | the call succeeds exactly when the request delivered a body; the data is that body stripped; a timeout gives the timeout message, a connection failure the connection message, an HTTP failure the message its code maps to, any other exception the unknown-error message |
| Vendor.DeliveredDataTrimmed | bot.py:139 | the data of every successful call has no whitespace at either end |
| Vendor.GetBalance | bot.py:142-146 | no balance exactly when the call failed or the data lacks the ACCESS_BALANCE prefix; an IndexError exactly when the prefix is there but no ':'; otherwise the amount is the text after the first ':' |
| Vendor.GetBalanceReads | bot.py:144-145 | `ACCESS_BALANCE:<amount>` yields exactly `<amount>` |
| Vendor.ServiceEntry | bot.py:158-160 | a line contributes an entry exactly when it holds a ':', split at its first ':' |
| Vendor.ServiceEntryReads | bot.py:159-160 | a line `<code>:<name>` whose code holds no ':' gives the entry (stripped code, stripped name), colons in the name kept |
| Vendor.ServicesOf | bot.py:156-160 | the dictionary of a list of lines has no more entries than there are lines |
| Vendor.CollectSize | bot.py:156-160 | storing a list of optional entries one by one gives at most as many keys as entries |
| Vendor.GetServicesVn | bot.py:148-161 | a failed call gives the empty result; otherwise the loop builds the dictionary of the `code:name` lines of `splitlines()` in order |
| Vendor.ServicesKeys | bot.py:156-160 | a code is a key exactly when some line with a ':' has that stripped code |
| Vendor.ServicesLastWins | bot.py:156-160 | the name stored for a code is the stripped name of the last line that defines it |
| Vendor.GetNumber | bot.py:163-178 | a number only for a successful ACCESS_NUMBER reply; its id, phone and price hold no ':' |
| Vendor.GetNumberAccepts | bot.py:170-178 | a number is returned exactly when the call succeeded, the data starts with ACCESS_NUMBER and holds at least two ':' |
| Vendor.GetNumberReads | bot.py:170-177 | round trip: joining fields with ':' and parsing gives back fields 1, 2 and 3 (or "?"); later fields are ignored |
| Vendor.GetStatus | bot.py:180-184 | the status is the data of a successful call, and "ERROR" for any failed one |
| Vendor.ClassifyCases | bot.py:201-214 | the watcher reads an OTP exactly for a STATUS_OK prefix; it closes exactly when there is no such prefix and some marker of `["STATUS_CANCEL", "STATUS_FINISH", "NO_ACTIVATION"]` occurs; it keeps polling exactly when there is no such prefix and no marker occurs |
| Vendor.FailedQueryKeepsPolling | bot.py:180-184 | a failed status query gives "ERROR", which the watcher reads as keep polling |
| Vendor.OkTakesPrecedence | bot.py:201-212 | any status starting with STATUS_OK is an OTP, whatever terminal marker follows |
| Vendor.MarkerCloses | bot.py:212-214 | a status not starting with STATUS_OK that holds STATUS_CANCEL, STATUS_FINISH or NO_ACTIVATION anywhere closes the watch |
| Vendor.OtpCode | bot.py:202 | an IndexError exactly when the status has no ':'; otherwise the code is everything after the first ':' |
| Vendor.OtpCodeReads | bot.py:202 | `<head>:<code>` with no ':' in head yields exactly `<code>`, colons included |
| Vendor.ManualCheck | bot.py:351-357 | an OTP verdict exactly for a STATUS_OK status holding a ':', carrying the text after the first ':'; a crash exactly for a STATUS_OK status without ':'; an expired verdict exactly for a status without the STATUS_OK prefix that holds NO_ACTIVATION anywhere |
| Vendor.ManualAgreesWithWatcher | bot.py:351-357 | the manual check sees an OTP (or crashes) exactly when the watcher sees one; an expired verdict is terminal for the watcher; what keeps the watcher polling reads as still waiting |
| Vendor.ManualIgnoresCancel | bot.py:354-357 | STATUS_CANCEL closes the watch but reads as still waiting to the manual check |
| Bot.ElapsedBounded | bot.py:195-197 | the schedule sleeps 94 seconds in total and no prefix sleeps longer |
| Bot.CheckKey | bot.py:188 | the key is the chat id in decimal, then '_', then the activation id |
| Bot.CheckKeyInjective | bot.py:188 | two watches share a registry key only when both chat id and activation id are equal |
| Bot.Run | bot.py:196-214 | a run never makes more than the 9 queries of the schedule |
| Bot.Watch | bot.py:194-221 | an admitted watch makes at most 9 queries and sleeps exactly the schedule's intervals before them |
| Bot.Notices | bot.py:201-221 | a finished watch sends at most one message, to its own chat, and none exactly when it was refused admission or an exception ended it |
| Bot.RunBounds | bot.py:195-221 | from interval i, the run makes between i and 9 queries, never ends as an admission refusal, and times out only after all 9 |
| Bot.RunTimeout | bot.py:196-221 | from interval i, the run times out exactly when every remaining verdict is Pending |
| Bot.RunStop | bot.py:196-214 | a run that does not time out stops at its first non-Pending verdict, and that query's outcome is the run's |
| Bot.RunFirstStop | bot.py:196-214 | conversely, Pending verdicts up to n and a stop at n end the run at n |
| Bot.StatusAt | bot.py:199 | the j-th status the watch reads is `get_status` of reply j |
| Bot.ReadsReply | bot.py:199-214 | the verdict and stopping outcome the watch reads at query j come from reply j |
| Bot.StopsAreStops | bot.py:201-214 | stopping at a query never means a timeout or an admission refusal |
| Bot.WatchBounded | bot.py:195-221 | an admitted watch makes 1 to 9 queries, sleeps at most 94 seconds, sends at most one message |
| Bot.WatchStopsAtFirstVerdict | bot.py:196-214 | unless it timed out, every query before the last read Pending and the last one's status decides the outcome |
| Bot.WatchFirstStop | bot.py:196-214 | conversely, the first non-Pending reply ends the watch after that many queries, with the outcome it decides |
| Bot.WatchTimeoutAllPending | bot.py:196-221 | a watch times out exactly when all 9 queries read Pending, and then it made all 9 |
| Bot.WatchTimeoutIff | bot.py:216-221 | the timeout notice is sent exactly when all 9 queries read Pending, then after 9 queries and 94 seconds |
| Bot.WatchNotifiesUnlessCrashed | bot.py:201-224 | a watch sends exactly one message unless an exception ended it |
| Bot.WatchWithOrder | bot.py:207 | with an order stored, the phone lookup cannot fail and the OTP notice carries that order's phone |
| Bot.OkStatusYieldsCode | bot.py:201-202 | `STATUS_OK:<code>` stops the watch and yields `<code>` |
| Bot.OtpOnFifthQuery | bot.py:195-210 | three waiting replies and a failed one, then `STATUS_OK:<code>`: the OTP is sent after five queries and 34 seconds |
| Bot.PollingWithoutN | bot.py:201-214 | a status without 'N' that does not start with STATUS_OK (such as STATUS_WAIT_CODE) keeps the watch polling |
| Bot.ParseRental | bot.py:293-299 | the service is one whitespace-free word, the operator one too or "any" |
| Bot.ParsesUnlessBlank | bot.py:293-299 | input parses to no rental exactly when it is whitespace alone |
| Bot.ParseRentalWords | bot.py:293-299 | lower-case words joined by spaces parse to the first word and the second word (or "any"); extra words are ignored |
| Bot.TextStep | bot.py:291-340 | what a text does to the orders, the chat and the watcher: a watch starts exactly for a parsed rental in a chat without an order when a number was rented, and then the order is stored and reported; otherwise the orders stay as they were; blank input sends nothing, a stored order the pending notice, a failed rental the failure notice; no order is ever removed |
| Bot.BotState.constructor | bot.py:60-61 | the bot starts with no orders, no active checks and no messages |
| Bot.BotState.AutoCheckOtp | bot.py:187-226 | a registered key returns at once with no query and no message; otherwise the run is `Watch` of the replies and the stored order, its notices are appended, and the key is gone afterwards with every other key untouched |
| Bot.BotState.PollUntilDone | bot.py:194-221 | the loop's run and messages are exactly `Watch` and its notices |
| Bot.BotState.Query | bot.py:197-214 | the i-th query stops exactly on a non-Pending verdict, with the stopping outcome and notices of reply i |
| Bot.BotState.HandleStatus | bot.py:201-214 | STATUS_OK sends the code with the stored phone or raises (no ':' or no order); a terminal status sends the closed notice; anything else sends nothing and polling goes on |
| Bot.BotState.HandleText | bot.py:291-340 | the orders, the appended messages and the activation to watch are exactly those of `TextStep` for the parsed text and the rental reply |
| Bot.BotState.RentAndWatch | bot.py:291-340 | the watcher starts exactly for a parsed rental in a chat without an order when a number was rented; orders and the messages before the watch are those of `TextStep`; a registered key gives no run and no more messages; otherwise the run is `Watch` of the status replies and the stored order and its notices follow; the order is stored first, so the watcher never fails on the phone lookup and the OTP notice carries the stored phone; the registry ends as it began |
| Bot.BotState.CmdCheck | bot.py:343-359 | without an order, the no-order notice; otherwise the manual classifier's message for the status, none when it raises |
| PyStr.ContainsInfix | bot.py:212 | `x in s` holds for any text around an occurrence of x |
| PyStr.ContainsMissingChar | bot.py:212 | a string lacking a character of x does not contain x |
| PyStr.SplitOnce | bot.py:159 | `split(sep, 1)`: one part exactly when sep is absent, else a head without sep and the rest, joined back with sep |
| PyStr.SplitOnceJoined | bot.py:202 | splitting once at a sep-free head gives the head and the whole tail |
| PyStr.Split | bot.py:171 | `split(sep)`: at least one part, none holding sep |
| PyStr.JoinSplit | bot.py:171 | joining the parts of `split(sep)` with sep gives the input back |
| PyStr.SplitJoin | bot.py:171 | splitting sep-free parts joined with sep gives the parts back |
| PyStr.SplitCount | bot.py:172 | `split(sep)` has one more part than the input has seps |
| PyStr.Strip | bot.py:139 | `strip()` leaves no whitespace at either end |
| PyStr.StripSurrounded | bot.py:139 | stripping whitespace around a trimmed text gives that text |
| PyStr.StripBlank | bot.py:293 | `strip()` gives the empty string exactly for whitespace alone |
| PyStr.Lower | bot.py:293 | `lower()` maps each character in place |
| PyStr.Words | bot.py:293 | `split()` yields only non-empty whitespace-free words |
| PyStr.WordsBlank | bot.py:293 | `split()` gives no words exactly for whitespace alone |
| PyStr.WordsUnwords | bot.py:293 | splitting words joined by single spaces gives the words back |
| PyStr.SplitLines | bot.py:157 | `splitlines()` yields lines without line breaks |
| PyStr.SplitLinesJoin | bot.py:157 | `splitlines()` of break-free lines joined by '\n', the last one non-empty, gives the lines back |
| PyStr.IntToString | bot.py:188 | `str(int)`: a '-' first exactly for negatives, otherwise digits |
| PyStr.IntToStringInjective | bot.py:188 | distinct integers print differently |
| PyStr.SeparatedUnique | bot.py:188 | `x + c + a == y + c + b` with c in neither x nor y forces x == y and a == b |

## Left out

- Telegram calls (`send_message`, `reply_to`, `delete_message`, the loading message, keyboards, HTML wording) are foreign I/O. Each message the bot sends is one `Reply` kind appended to `log`. The menu handlers `cmd_start`, `cmd_balance`, `cmd_services`, `cmd_create_order` and `cmd_help` only format and send text, so they are not modelled.
- An exception raised by `send_message` itself is not modelled: such a call never reaches the `break` after it, and the watcher's `except` catches the exception instead. The model assumes sending succeeds.
- The HTTP session, retry adapter, proxy and request parameters (bot.py:63-86, 133-138) are network plumbing. Each call's result is a `Transport` value, and each status query is the next element of `replies`.
- Vendor.ApiCall: takes the HTTP status code as given. In `requests`, a `Response` is falsy for every status of 400 or more, so the `if e.response` at bot.py:119 reads code 0 and only the busy message is reachable there. The retry adapter also turns retries exhausted on 429 and 5xx into a `RetryError`, which ends in the generic `except` and gives the unknown-error message. Neither library behaviour is modelled: the model maps the code it is given.
- Threads and `time.sleep`: each watcher runs to its end in sequence, and a sleep only adds to `waited`. The check-then-insert at bot.py:189-192 is not atomic in the source, so no claim about concurrent watches is made.
- `notify_admin` and logging in the `except` branches are not modelled.
- Vendor.GetBalance: stops at the text handed to `float(...)`; the floating-point conversion and the balance handler's formatting are not modelled.
- Vendor.GetServicesVn: a failed call returns `[]` in the source, which the model gives as the empty map. Both are falsy and empty to the caller, but the type differs.
- Vendor.GetServicesVn: the dictionary's insertion order (used by `cmd_services` for its first 15 entries) is not modelled, because a Dafny `map` has no order.
- Bot.BotState.HandleStatus: `user_orders[chat_id]` on the `defaultdict` inserts a `None` entry for a chat without an order. The model treats a `None` entry as no entry, as `handle_text` (`is not None`) and `cmd_check` (`not order`) both do.
- Bot.ParseRental: `lower()` is modelled for ASCII letters only; Python's full Unicode case mapping is not.
- The order in which handlers are registered decides which handler gets a message. Dispatch is not modelled: `HandleText` and `CmdCheck` are each modelled as the handler that runs.
- `user_orders` is never cleared in `bot.py`, and the model keeps that: no operation removes an order.
- The Flask webhook, home and health routes, environment loading and startup are not modelled, as they are boilerplate.

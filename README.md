# check-subs-bot subscription engine, in Dafny

A Telegram bot sells monthly access to a private channel. This project models
the engine that decides what the bot does:

- the purchase conversation: the sessions, the free-text month count and the invoice;
- the settlement of a successful payment: the ledger upsert and its retry loop;
- the status check;
- the daily reconciliation job, which sends reminders and removes expired members.

The repository holds two versions of this engine, and both are modelled so
their rules can be compared:

- **The current version** (`src/index.ts`, `src/notifyUsers.ts`) is in
  modules `SubscriptionBot` and `Reconciliation`.
- **The older root-level version** (`index.ts`, `notifyUsers.ts`) is in
  modules `LegacyBot` and `LegacyReconciliation`.

The shared parts are these modules:

- `Calendar`: PostgreSQL dates, `+ N days`, and `+ M month` with clamping to the last day of the month.
- `NumberInput`: `Number(text.trim())` and the 1..12 month check.
- `StoreRetry`: the five-failure retry rule.
- `Dispatch`: the rows of a query, and a `try` block that stops at its first failure.
- `Outbound`: the actions sent to Telegram or to the database.
- `Wrappers`: `Option`.

The state the handlers change lives in a `Bot` class with three fields:

- `sessions`: a map from user to session, where a missing key means there is no session;
- `ledger`: the `users` table, a map from user to end date. The map is keyed by user because `user_id` is `UNIQUE` (db.ts:16), and the ids are unbounded integers because the column was widened to `bigint` (migrations/1760801262856_change-user-id-to-bigint.js:11-14);
- `log`: the actions issued, in order.

Each handler is one method. The daily jobs are loops over the selected rows that change the same `Bot`.

External calls are inputs to the model:

- Each outcome is a parameter. A call the reconciliation job makes to Telegram or to the database fails exactly when its action is in the set `failing`.
- A job pass's selection query fails exactly when its offset is in the set `failingQueries`.
- The store's answers to the upsert are a list `outcomes`. A call beyond the end of the list fails.
- Invite-link creation and the status query each succeed or fail by a boolean.
- Today's date is a parameter.

## Model

| member | source | states |
|---|---|---|
| Calendar.DaysInMonth | src/index.ts:199-209 | in the Gregorian calendar behind PostgreSQL's `interval 'm month'`, February has 29 days exactly in leap years and 28 otherwise; the other months have 30 or 31 days, and 31 exactly for the odd months up to July and the even months from August |
| Calendar.YearLength | src/index.ts:199-209 | the twelve month lengths add up to 365 days, or 366 exactly in a leap year |
| Calendar.NextDay | src/notifyUsers.ts:19-23 | the next calendar day is strictly later |
| Calendar.NextDayIsImmediate | src/notifyUsers.ts:19-23 | no date lies strictly between a day and the next one: a date is later than `d` exactly when it is on or after the next day |
| Calendar.AddDays | src/notifyUsers.ts:19-23 | `date + interval 'n days'` is the day after, taken n times; its properties are stated by `AddDaysIncreasing` and `AddDaysNotBefore` |
| Calendar.BeforeIsStrictTotalOrder | src/notifyUsers.ts:10-16 | the date order used by the SQL comparisons is irreflexive, asymmetric, transitive and total |
| Calendar.AddDaysIncreasing | src/notifyUsers.ts:19-23 | `today + interval 'd days'` is strictly later for a larger `d` |
| Calendar.AddDaysNotBefore | src/notifyUsers.ts:19-23 | `today + interval 'd days'` is never before today |
| Calendar.AddMonths | src/index.ts:199-209 | `date + interval 'm month'` lands exactly m months later, on the same day of the month or, when that day does not exist, on the last day of that month |
| Calendar.AddMonthsLater | src/index.ts:199-209 | adding at least one month gives a strictly later date |
| Calendar.AddMonthsMonotone | src/index.ts:199-209 | adding months preserves the order of two dates |
| Calendar.AddMonthsInStepsNotLater | src/index.ts:199-209 | because of clamping, two renewals of a and b months never end later than one renewal of a + b months |
| NumberInput.TrimStartShape | src/index.ts:151 | stripping leading white space leaves a suffix of the input that does not start with JavaScript white space |
| NumberInput.TrimEndShape | src/index.ts:151 | stripping trailing white space leaves a prefix of the input that does not end with JavaScript white space |
| NumberInput.TrimShape | src/index.ts:151 | `trim()` leaves no white space at either end |
| NumberInput.TrimStartSkips | src/index.ts:151 | stripping leading white space removes exactly a leading run of white space |
| NumberInput.TrimEndSkips | src/index.ts:151 | stripping trailing white space removes exactly a trailing run of white space |
| NumberInput.TrimUnchanged | src/index.ts:151 | a string with no white space at its ends is left unchanged by `trim()` |
| NumberInput.Trim | src/index.ts:151 | `text.trim()`: strips JavaScript white space and line terminators from both ends; its properties are stated by `TrimShape`, `TrimStartSkips`, `TrimEndSkips` and `TrimUnchanged` |
| NumberInput.ToNumber | src/index.ts:152 | `Number(text)` on the decimal forms: white space around the text is ignored, the empty text is 0, and anything else that is not an optional sign, digits and an optional fraction is NaN; stated by `ToNumberOfTrimmed`, `DecimalRoundTrip` and `NonIntegerRejected` |
| NumberInput.ParseMonths | src/index.ts:151-162 | an accepted month count lies in 1..12 |
| NumberInput.IntToDecimal | src/index.ts:41 | `${n}` prints at least one character, each a digit except for a leading minus sign |
| NumberInput.DigitsRoundTrip | src/index.ts:41 | the decimal digits printed for a non-negative integer read back as that integer |
| NumberInput.TrimmedRoundTrip | src/index.ts:152 | the sign-and-digits reading of the decimal form of any integer gives that integer |
| NumberInput.DecimalUnpadded | src/index.ts:41 | the decimal form of an integer has no white space at either end |
| NumberInput.ToNumberOfTrimmed | src/index.ts:152 | `Number` reads a string with no surrounding white space as it stands |
| NumberInput.DecimalRoundTrip | src/index.ts:152 | `Number` of the decimal form of any integer gives that integer, with no fraction |
| NumberInput.MonthsAcceptedExactlyInRange | src/index.ts:158-164 | a typed integer is accepted, with its own value, exactly when it lies in 1..12 |
| NumberInput.PaddingIgnored | src/index.ts:151-152 | white space around the month count does not change the verdict |
| NumberInput.PaddedMonthsAccepted | src/index.ts:151-164 | an integer typed with any white space around it is accepted exactly when it lies in 1..12, with its own value |
| NumberInput.AcceptedSample | src/index.ts:151-164 | "7" is accepted as 7 |
| NumberInput.ZeroSampleRejected | src/index.ts:158-162 | "0" is rejected |
| NumberInput.ThirteenSampleRejected | src/index.ts:158-162 | "13" is rejected |
| NumberInput.NonIntegerRejected | src/index.ts:158-162 | a text whose `Number` is NaN or has a fraction is rejected |
| NumberInput.FractionSampleRejected | src/index.ts:158-162 | "7.5" is rejected |
| NumberInput.LettersSampleRejected | src/index.ts:158-162 | "abc" is rejected |
| StoreRetry.RetryFrom | src/index.ts:211-225 | the loop from a given number of earlier failures: one call, then stop on success or count a failure, with no call once five failures are counted; stated by `RetryFromOutcome` |
| StoreRetry.Retry | src/index.ts:211-225 | the whole loop, from no failures; stated by `RetryOutcome` |
| StoreRetry.RetryFromOutcome | src/index.ts:211-225 | from any number of earlier failures, the loop stops at the first success or at the fifth failure |
| StoreRetry.RetryOutcome | src/index.ts:211-225 | the upsert is issued one to five times; it is stored exactly when one of the first five calls succeeds; every call before the last one failed; and when nothing was stored, five calls were made |
| SubscriptionBot.GetInvoice | src/index.ts:36-66 | `getInvoice(id, months)`: sent to the payer, payload `subscription_<id>_<months>`, amount `100 * PRICE * months`, a receipt of `months` items at `<PRICE>.00`; stated by `InvoiceIdentifiesPurchase` and `InvoiceChargesPerMonth` |
| SubscriptionBot.ParsePayload | src/index.ts:41 | reads the user id and the month count back out of a payload, the inverse the payload format makes possible; stated by `InvoiceIdentifiesPurchase` |
| SubscriptionBot.InvoiceIdentifiesPurchase | src/index.ts:36-66 | the invoice goes to the paying user; its payload `subscription_<id>_<months>` decodes back to that user and month count; the receipt bills that many months at the unit value `<PRICE>.00` |
| SubscriptionBot.InvoiceChargesPerMonth | src/index.ts:44 | the amount is in kopecks: one month costs `100 * PRICE`, and the amount is `100 * PRICE * months`, the one-month amount times the number of months |
| SubscriptionBot.UpsertEnd | src/index.ts:199-209 | the upsert's new `subscription_end`: a new row ends m months from today, a row ending after today is extended by m months, any other row restarts from today; stated by `UpsertEndsLater`, `UpsertKeepsRemainingTime` and `RenewalExtendsExactlyWhenActive` |
| SubscriptionBot.UpsertEndsLater | src/index.ts:199-209 | after a payment for at least one month, the subscription ends after today and after its previous end date |
| SubscriptionBot.UpsertKeepsRemainingTime | src/index.ts:199-209 | a renewal never ends earlier than a first purchase made the same day |
| SubscriptionBot.StatusMessage | src/index.ts:96-120 | the status reply: inactive without a row or once the end date is reached, otherwise active until the end date; stated by `RenewalExtendsExactlyWhenActive` and `LegacyBot.StatusTrustsAnyRow` |
| SubscriptionBot.RenewalExtendsExactlyWhenActive | src/index.ts:96-120 | the status check reports a subscription active exactly when its row ends after today; the upsert extends from the end date exactly in that case and counts from today otherwise |
| SubscriptionBot.Bot.constructor | src/index.ts:26-31 | the bot starts with the `users` table and the session store as earlier runs left them (the `users` table of db.ts:13-19 and the `@telegraf/session/pg` store of src/index.ts:2 and src/index.ts:28, both PostgreSQL), every stored session holding a month count in 1..12, and nothing sent |
| SubscriptionBot.Bot.Restart | src/index.ts:68-80 | `restartBot` sets the session to `{months: 1, awaitingMonthsInput: false}`, whatever it held before, and sends the menu |
| SubscriptionBot.Bot.Start | src/index.ts:82-84 | `/start` is the restart |
| SubscriptionBot.Bot.Buy | src/index.ts:86-94 | the buy entry offers the payment methods and changes no state |
| SubscriptionBot.Bot.ChoosePaymentMethod | src/index.ts:122-137 | with no session, the payment-method button restarts; otherwise it sets the awaiting flag, keeps the month count, asks for the count and acknowledges |
| SubscriptionBot.Bot.Cancel | src/index.ts:139-147 | cancel edits the message, ends in the restart session and acknowledges |
| SubscriptionBot.Bot.ReceiveText | src/index.ts:150-173 | with no session, or when no count is awaited, text restarts and stores nothing. While awaiting, a valid count is stored and the awaiting flag stays set; an invalid one gets a re-prompt and changes nothing |
| SubscriptionBot.Bot.AnswerPreCheckout | src/index.ts:175 | every pre-checkout query is approved |
| SubscriptionBot.Bot.ConfirmPayment | src/index.ts:177-188 | confirm acknowledges first. It restarts when there is no session, and otherwise sends the invoice for the session's month count |
| SubscriptionBot.Bot.CheckStatus | src/index.ts:96-120 | the status check is read-only and replies with the status of this user's row; when its query fails, nothing is sent |
| SubscriptionBot.Bot.SuccessfulPayment | src/index.ts:190-228 | a successful payment makes the retry loop's calls; the ledger changes at most once and only at this user's row, with the upsert rule; the invite link is sent whatever the loop's outcome; a failed link creation or a missing session stops the handler |
| SubscriptionBot.Bot.StoreWithRetry | src/index.ts:199-225 | the upsert under the retry loop: the calls and the outcome are those of `StoreRetry.Retry`; the ledger changes at most once, only at this user's row, with the upsert rule; sessions and replies are untouched |
| SubscriptionBot.PaidMonths | src/index.ts:41 | the month count a payment's invoice payload bills this user for; stated by `InvoiceSettlesItsOwnCount` |
| SubscriptionBot.InvoiceSettlesItsOwnCount | src/index.ts:36-66 | the payload of an invoice issued to a user for 1..12 months credits exactly that count to that user, and nothing to anyone else |
| SubscriptionBot.Bot.SuccessfulPaymentOfInvoice | src/index.ts:190-228 | the settlement as intended: the same handler, crediting the month count of the paid invoice's payload; a payload that names another user or no valid count credits nothing |
| SubscriptionBot.StaleMonthCountScenario | src/index.ts:164-196 | a user sent a one-month invoice who then types 12 and pays that invoice is credited twelve months |
| Dispatch.ListRows | src/notifyUsers.ts:26-27 | the rows of a query list every selected user exactly once |
| Dispatch.AttemptedIsPrefix | src/notifyUsers.ts:42-66 | a `try` block issues a non-empty prefix of its calls. Every issued call except possibly the last succeeded, and a block that stopped early stopped at a failing call |
| Dispatch.ActionsAbout | src/notifyUsers.ts:27 | proof helper, not source behaviour: the per-user view of a log, which never makes it longer |
| Dispatch.ActionsAboutAppend | src/notifyUsers.ts:27 | proof helper: filtering by user distributes over concatenation of logs |
| Dispatch.ActionsAboutOneUser | src/notifyUsers.ts:42-66 | proof helper: a block about one user keeps all of its calls for that user and none for anyone else |
| Dispatch.AppendBlock | src/notifyUsers.ts:27-68 | proof helper: appending one user's block to a log adds the block to that user's actions and nothing to anyone else's |
| Dispatch.PassAppend | src/notifyUsers.ts:27 | handling one more row extends a pass by that row's block |
| Dispatch.PassIsolation | src/notifyUsers.ts:27-68 | in a pass over distinct rows whose blocks each concern their own user, each user gets exactly their own block and a user not among the rows gets nothing, whatever the other blocks hold |
| Dispatch.DistinctInit | src/notifyUsers.ts:26-27 | proof helper: the rows before the last one are distinct and do not include the last one |
| Reconciliation.Selection | src/notifyUsers.ts:10-24 | the query's rows: at offset 0 every end date up to and including today, otherwise exactly `today + d days`; stated by `SelectionsDisjoint`, `DistantEndNotSelected` and `CleanRevocationClearsExpired` |
| Reconciliation.DayWord | src/notifyUsers.ts:29-31 | the reminder's word for days; stated by `DayWordChoice` |
| Reconciliation.UserCalls | src/notifyUsers.ts:28-67 | the calls issued for one selected user: a reminder, or the offset-0 block up to its first failure; stated by `RevocationSteps` and `RevocationOrder` |
| Reconciliation.PassLog | src/notifyUsers.ts:27-68 | the calls of one pass, row after row; stated by `PerUserIsolation` and `ReminderPassSendsOnePerUser` |
| Reconciliation.Removed | src/notifyUsers.ts:27-68 | the rows one pass deletes; stated by `RemovedExactlyRevoked` |
| Reconciliation.DayWordChoice | src/notifyUsers.ts:29-31 | the reminder says "день" exactly when one day is left, and "дня" otherwise |
| Reconciliation.RevocationSteps | src/notifyUsers.ts:42-66 | at offset 0, each user's calls are the four-step block (notice, channel ban, chat ban, deletion), issued until the first failure |
| Reconciliation.RevocationOrder | src/notifyUsers.ts:42-66 | the calls come in the order notice, channel ban, chat ban, deletion. The deletion is attempted exactly when the three earlier calls succeeded, and the row is deleted exactly when all four succeed. A failed notice stops everything for that user |
| Reconciliation.UserCallsConcernUser | src/notifyUsers.ts:27-67 | every call issued for a selected user concerns that user |
| Reconciliation.RemovedExactlyRevoked | src/notifyUsers.ts:41-66 | a pass deletes exactly the selected users whose four calls all went through, and only at offset 0 |
| Reconciliation.ReminderPassSendsOnePerUser | src/notifyUsers.ts:28-39 | a reminder pass sends exactly one reminder per selected user, in row order, and deletes nothing |
| Reconciliation.PerUserIsolation | src/notifyUsers.ts:27-68 | each selected user gets exactly the calls of their own block, whatever fails for other users; unselected users get nothing |
| Reconciliation.CleanRevocationClearsExpired | src/notifyUsers.ts:10-16 | when every call succeeds, no row ends on or before today after the offset-0 pass, so a second offset-0 pass selects nobody |
| Reconciliation.SelectionsDisjoint | src/notifyUsers.ts:10-24 | the four offsets select disjoint sets of users, so no user gets two messages from one run |
| Reconciliation.DistantEndNotSelected | src/notifyUsers.ts:10-24 | a subscription ending more than three days ahead is selected by no offset |
| Reconciliation.PassStep | src/notifyUsers.ts:27 | handling one more row adds that row's calls and deletion to the pass |
| Reconciliation.RemoveInTwoSteps | src/notifyUsers.ts:57 | proof helper: deleting two sets of rows one after the other is deleting their union |
| Reconciliation.Revoke | src/notifyUsers.ts:42-66 | the offset-0 block logs the calls up to the first failure and deletes the row only when all four calls succeed |
| Reconciliation.HandleRow | src/notifyUsers.ts:28-67 | one row: a reminder for a positive offset, the revocation block at offset 0 |
| Reconciliation.HandleRows | src/notifyUsers.ts:27-68 | the loop issues the pass's calls row by row and deletes exactly the revoked rows; sessions are untouched |
| Reconciliation.NotifyUsers | src/notifyUsers.ts:7-70 | `notifyUsers(d)` handles exactly the users whose end date is `today + d` (for d ≥ 1) or on or before today (for d = 0), each once. A reminder pass leaves the ledger unchanged, and only offset 0 deletes rows. When the query fails, no row is handled and nothing changes |
| Reconciliation.DailyRun | src/notifyUsers.ts:74-79 | the job runs offsets 3, 2, 1, 0 in that order; all four select from the ledger as it was at the start; only the last deletes. A failing query stops the job at that offset: the passes before it ran in full, no later pass runs, and a job stopped before offset 0 deletes nothing |
| LegacyBot.GetInvoice | index.ts:16-41 | the older invoice: sent to the payer, a fixed payload, `100 * 3499 * months` and no receipt; stated by `InvoiceCarriesNoPurchase` |
| LegacyBot.InvoiceCarriesNoPurchase | index.ts:16-41 | the older invoice charges 349900 kopecks per month, and its payload is the same fixed string for every purchase, which does not decode to a user or a month count |
| LegacyBot.UpsertEnd | index.ts:161-171 | the older upsert's new end date: a new row ends m months from today, and an existing row is always extended from its own end date; stated by `UpsertRulesAgreeUnlessLapsed`, `LapsedRenewalNotLaterThanCurrent` and `LapsedRenewalStaysExpired` |
| LegacyBot.UpsertRulesAgreeUnlessLapsed | index.ts:161-171 | the older and current upserts agree on new rows and on rows still running after today |
| LegacyBot.LapsedRenewalNotLaterThanCurrent | index.ts:161-171 | on a lapsed row, the older upsert never ends later than the current one |
| LegacyBot.LapsedRenewalStaysExpired | index.ts:161-171 | the older upsert can leave a just-paid subscription ending before the payment day |
| LegacyBot.StatusMessage | index.ts:74-93 | the older status reply: active until the end date whenever a row exists; stated by `StatusTrustsAnyRow` |
| LegacyBot.StatusTrustsAnyRow | index.ts:74-93 | the older status check reports active exactly when a row exists, including a row whose end date has passed, which the current check reports inactive |
| LegacyBot.Bot.constructor | index.ts:57-58 | the bot starts with the `users` table as earlier runs left it (db.ts:13-19), no sessions (the session store is in memory) and nothing sent |
| LegacyBot.Bot.Restart | index.ts:43-55 | `restartBot` sets the session to `{months: 1, awaitingMonthsInput: false}` and sends the menu |
| LegacyBot.Bot.Start | index.ts:60-62 | `/start` is the restart |
| LegacyBot.Bot.Buy | index.ts:64-72 | the buy entry offers the payment methods and changes no state |
| LegacyBot.Bot.ChoosePaymentMethod | index.ts:96-105 | the button sets the awaiting flag and asks for the count, with no acknowledgement. Without a session the handler fails and nothing changes |
| LegacyBot.Bot.Cancel | index.ts:107-115 | cancel edits the message, writes `{months: 1}` and restarts, ending in the restart session, with no acknowledgement |
| LegacyBot.Bot.ReceiveText | index.ts:118-141 | text is ignored unless a count is awaited: no state change and nothing sent. While awaiting, a valid count is stored, and an invalid one gets a re-prompt and changes nothing |
| LegacyBot.Bot.AnswerPreCheckout | index.ts:143 | every pre-checkout query is approved |
| LegacyBot.Bot.ConfirmPayment | index.ts:145-149 | confirm sends the invoice for the session's month count, with no check that it is set |
| LegacyBot.Bot.CheckStatus | index.ts:74-93 | the status check is read-only and reports the row's end date if there is a row; when its query fails, nothing is sent |
| LegacyBot.Bot.SuccessfulPayment | index.ts:151-191 | the same retry loop as the current version, with the always-extend upsert; the invite link is sent whatever the loop's outcome |
| LegacyReconciliation.Selection | notifyUsers.ts:9-13 | the older query's rows: exactly the end dates equal to `today + d days`, for every offset including 0; stated by `ReminderSelectionsAgree`, `ExpirySelectionNarrower` and `MissedExpiryNeverSelected` |
| LegacyReconciliation.UserCalls | notifyUsers.ts:17-33 | the calls issued for one selected user: a reminder, or the notice followed by the channel ban unless the notice failed; stated by `NoticeThenBan` |
| LegacyReconciliation.PassLog | notifyUsers.ts:16-34 | the calls of one older pass, row after row; stated by `PerUserIsolation` |
| LegacyReconciliation.NoticeThenBan | notifyUsers.ts:22-33 | at offset 0 the older job sends the notice and then bans from the channel, unless the notice failed. It never bans from the chat or deletes the row. What it issues is the start of the current job's block |
| LegacyReconciliation.UserCallsConcernUser | notifyUsers.ts:16-34 | every call issued for a selected user concerns that user |
| LegacyReconciliation.PerUserIsolation | notifyUsers.ts:16-34 | each selected user gets exactly the calls of their own block, whatever fails for other users |
| LegacyReconciliation.ReminderSelectionsAgree | notifyUsers.ts:9-13 | for offsets 1 to 3 the older and current jobs select the same users |
| LegacyReconciliation.ExpirySelectionNarrower | notifyUsers.ts:9-13 | at offset 0 the older job selects a subset of the current job's users. The users only the current job selects are exactly those whose end date is already past |
| LegacyReconciliation.MissedExpiryNeverSelected | notifyUsers.ts:9-13 | a user whose end date is already past is selected by no offset of the older job |
| LegacyReconciliation.MissedExpirySample | notifyUsers.ts:9-13 | a subscription ending on 1 March 2024, seen first on 2 March 2024, is selected by no offset of the older job, but by offset 0 of the current one |
| LegacyReconciliation.PassStep | notifyUsers.ts:16 | handling one more row adds that row's calls to the pass |
| LegacyReconciliation.HandleRow | notifyUsers.ts:17-33 | one row: a reminder for a positive offset, or the notice-then-ban block at offset 0; the ledger is untouched |
| LegacyReconciliation.HandleRows | notifyUsers.ts:16-34 | the loop issues the pass's calls row by row and changes neither the ledger nor the sessions |
| LegacyReconciliation.NotifyUsers | notifyUsers.ts:8-35 | the older `notifyUsers(d)` handles exactly the users whose end date is `today + d`, for every d including 0. It leaves the ledger as it was, so repeating the pass reselects the same users. When the query fails, no row is handled |
| LegacyReconciliation.DailyRun | notifyUsers.ts:37-42 | the job runs offsets 3, 2, 1, 0 in that order over an unchanged ledger; a failing query stops the job at that offset, and no later pass runs |

## Left out

- Telegraf wiring is not modelled: middleware, `bot.catch`, `bot.launch`, logging, keyboards, and message wording beyond the choice of day word. Outbound effects are abstract log entries.
- A reply, answer or edit sent from a conversation handler is assumed to succeed. The calls that can fail in the model are these:
  - the reconciliation job's sends, bans and row deletions (the set `failing`);
  - each job pass's selection query (`failingQueries`), which stops the whole daily run at that offset;
  - the status query (`queryFails`);
  - the settlement's invite-link creation (`inviteCreated`) and its store calls (`outcomes`).
- Errors that escape a handler are not modelled beyond "the handler stops". The current bot's `bot.catch` only logs them. What an uncaught rejection does to the older bot's process, which has no `bot.catch`, is not modelled.
- The PostgreSQL session store of the current bot is modelled only as a map whose starting contents the constructor takes. Its reads and writes are assumed to succeed. The older bot's sessions are in memory, so they start empty.
- The database connection and the table's DDL are not modelled. The ledger is a map because `user_id` is unique.
- Cron timing and timezone are not modelled. Only the order of the four passes is.
- The invite link's expiry and member limit are not modelled, because they depend on the wall clock. Neither is the ban duration passed to `banChatMember`. Creating the invite link is a success/failure input.
- Status is decided at day granularity. The comparison `date < new Date()` at src/index.ts:111 is modelled as "the end date is today or earlier". Date formatting with `toLocaleDateString` is not modelled.
- NumberInput.ToNumber: `Number()` is modelled on decimal forms only: an optional sign, digits, and an optional fraction. The empty string is 0. The exponent, hexadecimal, binary, octal and `Infinity` forms are NaN in the model. So the model rejects texts such as "1e1" or "0x5", which the bot would accept as 10 or 5.
- NumberInput.ParseMonths: the model keeps a decimal fraction exactly, while JavaScript's `Number` rounds to the nearest double. A text like "1.00000000000000001" or "0.99999999999999999" rounds to 1, so `Number.isInteger` holds and the bot accepts 1 month, but the model rejects it. The two verdicts agree on every decimal text of at most fifteen significant digits, because such a decimal converts to a double and back unchanged. Integers above 2^53 in magnitude also round, but they are outside 1..12 either way.
- SubscriptionBot.GetInvoice: the price is modelled as an integer. The source reads it with `Number(process.env.PRICE)`, and only an integer price gives the `<price>.00` receipt value modelled here. The invoice's title, description, currency, provider token and e-mail flags are constants and are not modelled.
- The environment checks at start-up (src/index.ts:22-24, index.ts:18-20) are not modelled. Neither is the provider-token check inside the older `getInvoice` (index.ts:25-28).
- Concurrency between the cron job and the chat handlers is not modelled. Neither is SQL atomicity: each handler and each store call is one step.
- `ctx.session.months` in the successful-payment handler is assumed to hold a month count. Every session the handlers write holds one, so the failing upsert on a NULL count cannot happen.
- In the current bot, a valid month count does NOT clear the awaiting flag (src/index.ts:164). The model follows the code: the flag stays set.
- At offset 0 of the current job, all four calls share one `try`. If the notice or either ban fails, the row is NOT deleted, and the user is selected again on the next run. The model follows the code.

## Findings

| source | as written | input that shows it | evidently intended | confidence | as-written member | corrected member |
|---|---|---|---|---|---|---|
| index.ts:161-171 | an existing row is always extended from its own end date, even one long past | a row ending 10 January 2024, renewed for one month on 1 June 2024, ends on 10 February 2024, before the payment day | extend only a subscription still running, and otherwise count from the payment day, as src/index.ts:199-209 does | high, not executed | LegacyBot.LapsedRenewalStaysExpired | SubscriptionBot.UpsertEndsLater |
| notifyUsers.ts:9-13 | offset 0 selects only rows whose end date equals today | a row ending 1 March 2024, with the job next running on 2 March 2024, is selected by no offset on that day or any later one, so that member is never removed | offset 0 selects every end date up to and including today, as src/notifyUsers.ts:10-16 does, so that a clean pass leaves no expired row | medium, not executed | LegacyReconciliation.MissedExpirySample | Reconciliation.CleanRevocationClearsExpired |
| src/index.ts:164-196 | the payment handler credits the month count the session holds when the payment arrives; a valid count typed after the invoice was sent overwrites it, since the awaiting flag stays set | confirm an invoice for 1 month, type "12", pay the first invoice: the row is extended by twelve months while one month was paid (the older bot does the same at index.ts:131-158, but its fixed payload cannot name the count) | credit the month count of the invoice that was paid, which its payload carries | medium, not executed | SubscriptionBot.StaleMonthCountScenario | SubscriptionBot.Bot.SuccessfulPaymentOfInvoice |

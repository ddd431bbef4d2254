# Payment bot: registration, payment and leader election, modelled in Dafny

This project models the Telegram course-registration bot. A user picks a course
and answers the questions of the registration. They choose a payment method,
optionally enter a coupon, and send a receipt. The admins then approve or reject
the registration. The bot keeps every user's progress in a SQLite store, and a
supervisor keeps exactly one copy of the bot running among several machines through
a lock row in a spreadsheet.

The modules follow the program's files:

- `Strings` (strings.dfy): the Python string operations the handlers rely on:
  `strip`, ASCII `upper`/`lower`, `startswith`, `replace`, `split`, `join` and `int()`.
- `IsoTime` (iso_time.dfy): `utc_now_iso` and `parse_iso` of cluster_runner.py. This
  includes the calendar and the spellings `strptime` accepts.
- `Payment` (payment.dfy): the price part of `build_payment_text` (utils.py).
- `Registration` (registration.dfy): the per-user state dictionary. Each key is an
  optional field, and there is one constructor per stage.
- `StateStore` (state_store.dfy): db.py. It is a `Database` class whose `users` and
  `coupons` maps are the two tables. Every operation of db.py swallows its own
  exceptions; the `online` flag models a store that cannot be reached, for every
  call alike (see "## Left out" for a store that fails on one call only).
- `Utils` (utils.dfy): the known-users file, the approval messages, the message
  sender and the merged details cell of the registration sheet.
- `Conversation` (conversation.dfy): the stage machine of handlers.py as pure
  transitions from a stored record to the record written back.
- `Handlers` (handlers.dfy): the handlers as methods that read the store, apply a
  transition and write the result.
- `ClusterRunner` (cluster_runner.dfy): the lock row, staleness, and one pass of
  the supervision loop, both as a function `Next` and as the `Runner.Step` method on
  the runner's fields.

The messages' wording, the spreadsheet, Drive and Telegram are outside the model.
What they answer enters as parameters: the sheet row returned, which send to the
user raises, whether a write succeeded, the clock reading, and the price table.

Some behaviours of the code are worth knowing:

- `parse_iso` is lenient. It is `strptime`, so it accepts one-digit fields, a space
  before a one-digit day, and lower-case `t`/`z`, not only the exact form
  (`IsoTime.LenientSpellingsAgree`).
- A coupon's usage limit is checked when the code is typed and counted only on
  approval, so it can be exceeded (`StateStore.LimitCanBeExceeded`).
- `handle_admin_decision` keeps the record when a message to the user cannot be
  sent (see Findings). The handler methods take the number of the step that
  raises (`failAt`), a send to the user or the answer to the admin, and follow
  the code; `Handlers.Decide` is the corrected decision.

## Model

| member | source | states |
|---|---|---|
| Strings.StripIdempotent | handlers.py:100 | Stripping an already stripped message changes nothing |
| Strings.UpperStripCommute | db.py:239 | Upper-casing and stripping commute, so a coupon key is the same whichever is applied first |
| Strings.JoinSplit | handlers.py:207 | `split` loses no text: joining its pieces with the separator gives back the message |
| Strings.ParseIntToString | handlers.py:180-182 | `int()` of the decimal text of an integer is that integer |
| Strings.RemoveAllPrefix | handlers.py:649-650 | Removing every `pay_` from `pay_` followed by a text without `pay_` leaves that text |
| IsoTime.FromSeconds | cluster_runner.py:22-23 | The calendar date of a clock reading is valid, has a four-digit year and converts back to that reading |
| IsoTime.ParseIso | cluster_runner.py:25-29 | A text parses only when `strptime` extracts a valid date from it, and then denotes that date's clock reading |
| IsoTime.ParseFormatIso | cluster_runner.py:22-29 | `parse_iso(utc_now_iso())` recovers the clock reading to the second |
| IsoTime.LenientSpellingsAgree | cluster_runner.py:25-29 | One-digit fields, a space before a one-digit day and lower-case `t`/`z` parse to the same instant as the zero-padded text |
| IsoTime.NoThirtiethOfFebruary | cluster_runner.py:25-29 | A well-formed text naming 30 February is rejected |
| IsoTime.NoLeapSecond | cluster_runner.py:25-29 | A well-formed text naming second 60 is rejected |
| Payment.BuildPaymentText | utils.py:90-100 | The apology exactly for an unknown method; a `KeyError` exactly for a method without a currency or a kids course without a kids price |
| Payment.AmountDueIsPrice | utils.py:98-123 | The price asked is the unit price times the headcount, reduced by the percentage exactly when it is positive |
| Payment.UnitsByCourse | utils.py:108-116 | Kids and highschool scale with the number given (absent, zero or negative counts as one); other courses are charged once |
| Payment.DiscountBounds | utils.py:120-123 | A discount from 0 to 100 percent never raises the price and never makes it negative; 100 percent makes it free |
| Payment.DiscountNoticeIff | utils.py:119-127 | The discount notice appears exactly when the percentage is positive, and it reports the undiscounted total |
| Payment.MtcnOnlyForWesternUnion | utils.py:198-210 | Only Western Union asks for the MTCN, and every message asks for the receipt |
| Registration.Fresh | handlers.py:22-24 | The record `/start` writes holds the username, has no stage and is not empty |
| StateStore.Database.constructor | db.py:12-40 | A new store has empty tables |
| StateStore.StoredState | db.py:42-56 | The stored record, or the empty record when there is none or the store cannot be read |
| StateStore.Database.GetUserState | db.py:42-56 | `get_user_state` answers `StoredState` of the tables |
| StateStore.Database.UpdateUserState | db.py:58-78 | The row is replaced with the new record and clock reading, its reminder flag cleared, other rows unchanged; nothing changes offline |
| StateStore.Database.DeleteUserState | db.py:80-88 | The row is removed and nothing else changes |
| StateStore.Database.MarkReminderSent | db.py:122-130 | Only that row's reminder flag is set; a missing row changes nothing |
| StateStore.Database.GetAbandonedUsers | db.py:90-120 | Exactly the users without reminder, with a stage other than completed and older than the threshold, in ascending id order |
| StateStore.Database.GetIncompleteUsers | db.py:132-153 | Exactly the users whose stage is not completed, in ascending order |
| StateStore.Database.GetStatsCounts | db.py:155-186 | The number of rows and the tally per course, `unknown` for records without one |
| StateStore.Database.GetFunnelStats | db.py:188-211 | The tally per stage, `unknown` for records without one |
| StateStore.TallyAdd | db.py:170-183 | Counting one more row adds one to its key only |
| StateStore.TallyBounds | db.py:170-183 | Every tallied key counts between one and all rows |
| StateStore.FreshWriteNotAbandoned | db.py:90-120 | A row written now is not abandoned now |
| StateStore.ReminderRemovesFromAbandoned | db.py:122-130 | Marking a reminder removes exactly that user from the abandoned ones |
| StateStore.AbandonedAreIncomplete | db.py:90-153 | Every abandoned user is incomplete |
| StateStore.NormalizeCodeIdempotent | db.py:239-251 | A stored coupon key normalises to itself, and the case of a typed code does not matter |
| StateStore.CouponLookup | db.py:245-267 | The percentage only for a known, not used-up code that is not for another course |
| StateStore.Database.AddCoupon | db.py:213-243 | The coupon is stored under its normalised code with a zero count |
| StateStore.Database.GetCoupon | db.py:245-267 | `get_coupon` answers `CouponLookup` of the table, and nothing offline |
| StateStore.Database.RedeemCoupon | db.py:269-279 | One more use of an existing coupon; nothing for an empty or unknown code |
| StateStore.Database.DeleteCoupon | db.py:281-289 | The coupon is removed and nothing else changes |
| StateStore.Database.ListCoupons | db.py:291-319 | Every stored coupon with its percentage, count and limit |
| StateStore.RedeemedTimesCount | db.py:269-279 | Redeeming n times adds n uses to that coupon only |
| StateStore.AddedCouponFound | db.py:213-267 | A new coupon is accepted for its course and for users without one, refused for any other course |
| StateStore.UsageLimitHonoured | db.py:245-279 | A coupon with a positive limit is accepted exactly for its first `limit` redemptions |
| StateStore.UnlimitedNeverExhausted | db.py:245-279 | A coupon without a positive limit is never used up |
| StateStore.LimitCanBeExceeded | db.py:245-279 | Two users validating the last use are both accepted, and the count ends one past the limit |
| Utils.KnownUsers.Load | utils.py:19-26 | The stored set, or no users for a missing or unreadable file |
| Utils.KnownUsers.Save | utils.py:28-33 | The file becomes `SavedFile` of the old file |
| Utils.SavedFileRemembers | utils.py:19-33 | After saving the user is known, and saving again changes nothing |
| Utils.SavedFileKeepsOrResets | utils.py:19-33 | Saving keeps every known user, and an unreadable file is replaced by one holding the new user |
| Utils.ApprovalMessages | utils.py:319-406 | Three messages for private, one otherwise, the expert message for unknown courses; the kids and highschool messages carry the record's count and names line |
| Utils.KidsLineEmptyIff | utils.py:320-326 | The kids line is empty exactly when neither the kids count nor the names are truthy |
| Utils.HsLineEmptyIff | utils.py:352-356 | The highschool line is empty exactly when neither the count nor the names are truthy, and otherwise shows `-` for the missing one |
| Utils.KidsMessageShowsCount | utils.py:319-342 | A truthy kids count appears in decimal, after its label, inside the kids message |
| Utils.HsMessageShowsNames | utils.py:351-376 | Truthy highschool names appear, after their label, inside the highschool message |
| Utils.SendMessagesSequence | utils.py:408-414 | Sends the non-empty messages in order; a send that raises ends the sequence after the messages before it and reports the sequence undelivered |
| Utils.NonEmptyKeepsAll | utils.py:408-414 | When every message has text all are sent |
| Utils.NonEmptyOfConcat | utils.py:408-414 | The empty messages are skipped and the order kept |
| Utils.ApprovalMessagesSent | utils.py:398-414 | With non-empty templates the approved user receives three messages for private and one otherwise |
| Utils.DetailParts | utils.py:235-245 | Every part of the details cell is non-empty |
| Utils.MergedDetailsEmptyIff | utils.py:221-247 | The cell is empty exactly when no part is present |
| Utils.WhatsappFirst | utils.py:235-247 | A WhatsApp number, when present, comes first |
| Utils.KidsInfoIff | utils.py:221-231 | The kids or trainees part appears exactly for those courses with a non-zero count |
| Conversation.PositiveCount | handlers.py:180-186 | A count is accepted exactly when `int()` reads it and it is greater than zero |
| Conversation.CleanNames | handlers.py:207 | No more names than pieces, and none of them blank |
| Conversation.TextStep | handlers.py:98-324 | A write only for a record with a stage; the written record has a stage and keeps the username and the course |
| Conversation.CallbackStep | handlers.py:589-692 | An empty record is always replaced, and whatever is written is not empty |
| Conversation.ReceiptStep | handlers.py:424-476 | A write only while a receipt is awaited and a file is attached, storing that file |
| Conversation.NameStored | handlers.py:112-116 | The name is stored as typed and the e-mail is asked next |
| Conversation.EmailRules | handlers.py:118-141 | An e-mail needs `@` and a dot, and Gmail for expert and highschool; those wait for confirmation, others are stored |
| Conversation.EmailConfirmationRules | handlers.py:143-159 | Entries are compared ignoring surrounding whitespace and ASCII case; a match stores the first entry; the pending entry is dropped either way |
| Conversation.SameEmailConfirmed | handlers.py:118-159 | Typing the same address twice confirms it |
| Conversation.WhatsappRouting | handlers.py:161-176 | The number is stored and the course decides the next question |
| Conversation.KidsCountRules | handlers.py:178-189 | A children count is stored exactly when it is a positive integer; otherwise nothing changes |
| Conversation.HsCountRules | handlers.py:191-202 | A trainee count is stored exactly when it is a positive integer; otherwise nothing changes |
| Conversation.CountOfDecimal | handlers.py:178-202 | Every positive decimal number is accepted as the count it denotes |
| Conversation.NamesRules | handlers.py:205-220 | Names are stored joined by ", "; a list not matching a non-zero count asks for confirmation |
| Conversation.RetypedNames | handlers.py:238-256 | A non-affirmative answer is a new names list, handled as the first |
| Conversation.NamesWithoutCount | handlers.py:205-220 | Without a count every list is accepted |
| Conversation.AffirmativeKeepsNames | handlers.py:238-241 | An affirmative answer keeps the stored names and moves on |
| Conversation.CouponRules | handlers.py:296-313 | The skip word moves on; an accepted code stores its percentage and upper-cased code; anything else changes nothing |
| Conversation.TextIgnoredOutsideTextStages | handlers.py:98-324 | Text while a button, a receipt or nothing is awaited changes nothing |
| Conversation.LastAnswerCompletes | handlers.py:278-294 | The amount and the transfer details complete the registration |
| Conversation.ExpertRegistration | handlers.py:112-176 | A Gmail expert user who confirms their address reaches the payment choice with name, e-mail and WhatsApp stored |
| Conversation.CourseButton | handlers.py:603-615 | A course button stores the course named after `course_` |
| Conversation.StageButtons | handlers.py:617-647 | Every `join_` button, whatever course follows, and the coupon and skip buttons set their stage only |
| Conversation.InformationButtons | handlers.py:622-637 | The support button and every `faq_` and `question_` button write nothing for a known user |
| Conversation.PayRules | handlers.py:649-683 | Nothing without a course; with one, the method, extra details exactly for Western Union and Vodafone Cash, and the receipt stage |
| Conversation.PayButtonKey | handlers.py:650 | A payment button yields the method key after `pay_` |
| Conversation.ReceiptOnlyWhenAwaited | handlers.py:428-446 | A receipt is taken only while awaited and only as a photo or a document |
| Conversation.VodafoneNamed | handlers.py:450-465 | The Vodafone Cash method leads to the Vodafone details |
| Conversation.WesternUnionNotVodafone | handlers.py:450-465 | Western Union leads to its own details, not Vodafone's |
| Conversation.ReceiptAfterPay | handlers.py:424-476 | After a payment button the receipt leads to the method's details or completes the registration |
| Handlers.Stored | db.py:58-78 | The table after writing a transition's record, unchanged when nothing is written |
| Handlers.Forwarded | handlers.py:327-345 | The sheet row is stored exactly when the sheet answers one for a non-empty record |
| Handlers.ForwardToAdmin | handlers.py:327-421 | The user table becomes `Forwarded` of the stored record |
| Handlers.HandleText | handlers.py:98-324 | The table becomes the stored `TextOutcome` of the old record and the coupon table's answer |
| Handlers.HandleReceipt | handlers.py:424-476 | The table becomes the stored `ReceiptOutcome` |
| Handlers.StartCommand | handlers.py:18-24 | The user becomes known and their record is reset to the username |
| Handlers.DecideAsWritten | handlers.py:479-586 | Agrees with `Decide` when the messages were delivered; otherwise the coupon is still redeemed but the record is kept |
| Handlers.Decide | handlers.py:479-586 | Approval redeems the coupon once and the record is deleted either way |
| Handlers.HandleAdminDecision | handlers.py:479-586 | The tables become `DecideAsWritten` of the old tables: the coupon is redeemed before the sends, and the record is deleted only when every send to the user and the answer to the admin went out; the messages sent are the decision messages up to the failing send |
| Handlers.HandleDecisionButton | handlers.py:479-483 | An approve or reject button whose target id parses turns the tables into `DecideAsWritten` of the old tables for that target; an unparsable target leaves them unchanged |
| Handlers.StorePressed | handlers.py:589-647 | The presser's table row becomes the stored `CallbackStep` of the old record, a fresh record for an empty one; coupons are untouched |
| Handlers.HandleCallback | handlers.py:589-692 | The presser's record is written, then a decision button applies `DecideAsWritten` to its target |
| Handlers.CompletionRecordsSheetRow | handlers.py:278-294 | The last answer is stored as completed, with the sheet row when one was returned |
| Handlers.CompletionWithoutSheet | handlers.py:327-345 | A failing sheet leaves the completed record without a row |
| Handlers.NoForwardBeforeTheEnd | handlers.py:98-324 | Every stage before the last is written without a hand-over |
| Handlers.ReceiptHandOver | handlers.py:448-476 | A method without extra details completes and is handed over; one with details waits for them |
| Handlers.DecisionWithoutRecord | handlers.py:485-492 | A decision about a user without a record changes nothing |
| Handlers.DecisionEffect | handlers.py:497-586 | Approval redeems the user's coupon once and removes the record; rejection only removes it |
| Handlers.DecisionTakenOnce | handlers.py:479-586 | Deciding twice acts once: the coupon is redeemed at most once per registration |
| Handlers.RetriedApprovalRedeemsTwice | handlers.py:497-586 | As written, an approval whose message fails keeps the record, so a second approval redeems the coupon twice |
| Handlers.ApprovalMessageCount | handlers.py:555-558 | The approved user receives three messages for private and one otherwise |
| Handlers.DecisionButtonTarget | handlers.py:481-482 | A decision button carries the user id after the underscore |
| ClusterRunner.ReadLock | cluster_runner.py:44-53 | A missing row reads as three empty cells |
| ClusterRunner.ReadWrittenLock | cluster_runner.py:44-56 | Reading the row back gives what `write_lock` wrote |
| ClusterRunner.ReadLockMissingCells | cluster_runner.py:44-53 | Missing cells read as empty, present ones as written |
| ClusterRunner.LockSheet.Write | cluster_runner.py:55-56 | A successful write replaces the row; a failed one leaves it |
| ClusterRunner.HeartbeatStaleIff | cluster_runner.py:58-65 | A heartbeat written at t0 is stale exactly when more than `STALE_AFTER` seconds old; at exactly that age it is alive |
| ClusterRunner.UnreadableHeartbeatIsStale | cluster_runner.py:58-63 | An empty or unparsable heartbeat is stale |
| ClusterRunner.StopBot | cluster_runner.py:71-81 | Only a running process is stopped |
| ClusterRunner.Next | cluster_runner.py:98-153 | A follower keeps its heartbeat time, and the row changes only through a successful write |
| ClusterRunner.Runner.constructor | cluster_runner.py:94-96 | Follower, no bot, last heartbeat 0 |
| ClusterRunner.Runner.Step | cluster_runner.py:98-153 | The runner's fields and the row become `Next` of the old ones |
| ClusterRunner.LostLeadershipStepsDown | cluster_runner.py:105-110 | A leader whose row names another instance steps down, stops its bot and writes nothing |
| ClusterRunner.LeaderHeartbeat | cluster_runner.py:111-121 | The heartbeat is written exactly when due and the write succeeds; the last heartbeat time moves whenever one was due |
| ClusterRunner.LeaderRestartsCrashedBot | cluster_runner.py:122-124 | A leader restarts an exited bot |
| ClusterRunner.ClaimOnlyWhenFreeOrStale | cluster_runner.py:127-143 | A follower leads only after finding no live leader, writing its claim and reading back its own name; it then runs a bot |
| ClusterRunner.UncontestedClaimWins | cluster_runner.py:127-143 | A claim not overwritten wins, and its heartbeat is alive |
| ClusterRunner.OverwrittenClaimLoses | cluster_runner.py:137-145 | A claim overwritten before the re-read is lost and nothing of the runner changes |
| ClusterRunner.FailedClaimChangesNothing | cluster_runner.py:130-135 | A failed claim write leaves the runner and the row unchanged |
| ClusterRunner.StandbyWhileLeaderAlive | cluster_runner.py:147-151 | A follower seeing a live leader stays on standby with no bot, even when the row names itself |
| ClusterRunner.FollowerWaitsForStaleHeartbeat | cluster_runner.py:103-143 | A follower takes over a leader's row only after its heartbeat is more than `STALE_AFTER` seconds old |

## Left out

- Telegram, Google Sheets, Google Drive and the subprocess are not modelled. What they answer enters as parameters: the sheet row, which send to the user raises, whether a write succeeded, an overwriting rival row, and a bot that has exited.
- The message wording, keyboards, the admin notification of forward_to_admin and the captions are left out. Only the records and tables they leave behind are modelled.
- Drive access grants (utils.py:48-85) and `update_status_in_sheet` have no effect on the store, so they are left out.
- Broadcasts, admin coupon commands, stats commands and the abandoned-users job of handlers.py (694-937) are outside the core. The db.py operations they call are modelled.
- Strings: `upper`/`lower` are ASCII only; Unicode case mapping, `int()` of digits outside the ASCII, Arabic-Indic and Extended Arabic-Indic ranges, and underscores in `int()` are not modelled.
- Payment.BuildPaymentText: the float discount is computed on exact rationals, so float rounding is not modelled.
- Payment.BuildPaymentText: the method's header and body texts are opaque strings.
- Conversation.TextStep: `get_coupon` is asked for every message, where the source asks only in the coupon stage. It only reads, so the stored table is the same.
- Conversation.CallbackStep: the `course_` branch writes before `PRICES` lookups that may raise; that exception after the write is not modelled.
- Handlers.HandleReceipt: the source writes the record twice, each write with its own `datetime.now()`. The second write replaces the whole row, so the table ends with the final record at the second reading; the model writes that record once at `now`, the second reading.
- Handlers.HandleAdminDecision: the text of the answers to the admin is left out; the answer after the sends (handlers.py:560, 569) is counted as the last step `failAt` can hit, because when it raises the deletion is skipped as for a failed send. `update_status_in_sheet` and the caption edit are guarded and do not touch the tables.
- StateStore.Database: `online` holds for the whole store, so a store that fails on one call and works on the next is not modelled. In handle_callback a failed read followed by a successful write replaces a stored registration with a fresh record; in handle_admin_decision `redeem_coupon` can fail while `delete_user_state` succeeds; in handle_receipt the second write can fail after the first succeeded. Handlers.HandleText, Handlers.HandleReceipt, Handlers.StartCommand, Handlers.HandleAdminDecision, Handlers.StorePressed and Handlers.HandleCallback see one store state throughout.
- Handlers.HandleCallback: the unguarded `query.answer()` at handlers.py:591 runs first; when it raises nothing is written, and that path is not modelled.
- Utils.ApprovalMessages: the fixed wording of the messages and of the labels of the kids and highschool lines is opaque `Templates` text.
- IsoTime.FormatIso: clock readings are whole seconds within years 1000-9999. Fractional seconds and `strftime` of a year below 1000 are not modelled.
- ClusterRunner.Runner.Step: requires the clock to be within years 1000-9999, because `FormatIso` is only defined there.
- ClusterRunner.Runner.Step: one pass of the endless loop is modelled, not the loop. The sleeps, a failing read, an exception from the re-read after a claim, and `time.time()` versus `datetime.now()` as distinct clocks are left out.
- ClusterRunner: mutual exclusion is not claimed. Two runners can both lead while the sheet is slow, and the model only states what one pass does.
- get_sheet, the connection loop and the sheet's header row (cluster_runner.py:31-42, 84-92) are setup and I/O.

## Findings

| source | as written | input that shows it | evidently intended | confidence | as-written member | corrected member |
|---|---|---|---|---|---|---|
| handlers.py:497-586 | The coupon is redeemed before the messages to the user are sent. The sends and the answer to the admin that follows them are not guarded, so a failure in any of them raises before `delete_user_state` and the record stays. | A user who blocked the bot and entered a coupon; the admin presses approve twice. The coupon's count rises by two. | The record is deleted whatever happens to the messages and the answer, so the coupon is redeemed once per registration. | not executed | Handlers.RetriedApprovalRedeemsTwice | Handlers.DecisionTakenOnce |

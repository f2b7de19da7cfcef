# Subscription and payment ledger: a verified model

The application sells monthly access to a private channel. Its core is one database with users, subscription rows and
payments, and five kinds of step that act on it: paid checkouts and administrator's grants, screenshots with a later
confirmation, a daily reminder job, a daily removal job, and a payment webhook served by concurrent handlers. This
project models that core and proves what the many rows, paths and jobs amount to together.

`dafny verify dfyconfig.toml` checks everything.

## What is proved

Both daily jobs list their rows in one query and work on them later, one transaction, send or call at a time, mostly
without looking again at what they listed. Every result about runs is about arbitrary interleavings of those single
steps with each other and with payments, renewals and confirmations, at any times.

- **One number per user.** Every activation, whichever path it takes and however many live rows the user has, moves
  "paid until" to max(now, paid until) plus thirty days; nothing else moves it, for anybody. This holds exactly as long
  as no row that the removal job closed although it was renewed outranks the user's live rows at a purchase; nobody ever
  has more than they bought. The periods bought are disjoint, and a user has access beyond now exactly when now lies
  inside one of them, but for such closed rows (`PaidTime`; a run that loses paid days, `KickRaceCases.PaidDaysAreLost`).
- **Every payment counts once.** Payments are never lost, altered or moved to another user, each activation has a
  payment of its own, and a placeholder is confirmed at most once in every continuation. A screenshot whose key was free
  can be confirmed until it is, and then credits its sender (`Accounting`).
- **Webhooks are exactly-once.** For any number of handlers and any repeated, reordered stream of notifications, each
  session has at most one payment, one activation, one "ok" and one confirmation, the ledger is what the first
  transaction of each session alone would have made of it, and whoever is granted access is the payer (`Webhook`).
- **The removal job against everything else.** A row renewed after it was listed is spared exactly unless it is put back
  to EXPIRING: by the job's own first hop, for a row listed as ACTIVE; by a reminder visit that listed the row before
  the renewal; or by a visit in due course, 27 days later. Whoever is about to be banned is paid up exactly when such a
  row lies ahead, or when they paid between the check and the ban (`KickRace`; each cause occurs, `KickRaceCases`).
  Left alone, a run closes exactly the expired live rows and bans exactly the unpaid, in any order of candidates
  (`KickBatch`, `AutoKick`). A run that stops half-way is made good by the next, exactly but for the rows it had walked
  past their second hop: these nothing ever takes up again (`KickRace.LaterRunHandlesExactly`, `KickRace.StoppedForever`).
- **Reminders** delivered in one period count strictly down within 3, 2, 1 in every interleaving. A daily schedule
  delivers exactly 3, 2, 1 if and only if no reminder is on record when it starts; after a renewal during a visit, if
  and only if that visit had nothing to send or did not deliver (`Reminders.PeriodGetsAllThreeExactly`,
  `Reminders.RenewedPeriodExactly`). Exactly when a row's status and record are out of order is proved as well (`Rows`,
  `Invariants.RowsInOrderExactly`, `Reminders.VisitAmidRenewalsExactly`).
- **The report splitter** sends texts that hold all lines in order, respects the limit, and uses the fewest messages
  (`Splitter`).

## How it is modelled

- `Rows` is one subscription row, and where the two jobs stand with it, as a machine of its own. `Ledger` holds the
  tables as values, and `Next`, the effect of each committed transaction, send or call. A run is any sequence of events
  that are possible when their turn comes. `Repositories.Database` is the mutable database; the service, job and
  webhook methods work on it step by step and are proved to have exactly the effect of the corresponding events.
- The jobs' progress and four history variables per row (renewed since listed, renewed since sent, who moved the row
  last, where the remembered reminder comes from) are part of the world. No decision depends on the history variables.
- `Effects` says once more, in table entries and microseconds and without the ledger's definitions, what a payment, a
  screenshot and a confirmation do; the service and webhook methods promise that too.
- Row ids are table indices, since rows are only appended. A tie between live rows with the same expiry may be broken
  either way. A missing expiry sorts first in descending order, as in the production database.
- Instants are whole microseconds and the clock never goes back. The days-left value is computed by the program in
  floating point from a difference of timestamps; for spans of months a microsecond stays far above its rounding, so the
  exact ceiling is used.
- Each block that the program runs in one transaction is one atomic step. Two overlapping activations of one user,
  which take no row lock, are outside the model.
- Each job runs at most once at a time. A run may stop half-way anywhere but between sending a reminder and recording it.
  A later run lists the live rows it left and starts over with them; the closed rows it left stay as they are.
- Only the webhook handlers record payments in the namespace of checkout sessions.
- Telegram is a set of answers fixed per candidate row, each with an effect and a report, and a trace of the calls made.
  A reminder is "delivered" when its send is reported as done: one that arrives and is reported as failed is sent again.

## Where the code and its documentation differ

The model follows the code in each case.

- README.md:27 says a KICKED subscription becomes ACTIVE on resubscribing. The transition table allows it, but no path
  takes it: a returning subscriber gets a fresh row (`Invariants.ClosedForever`).
- app/jobs/auto_kick.py:8 says nobody is left permanently banned. That holds exactly as far as the unban calls are made
  and take effect (`KickBatch.LeftBannedExactlyWhen`, `KickBatch.FailuresLeaveABan`).
- app/jobs/auto_kick.py:158-166 treats a renewal between the query and the walk as a lost race that is skipped. It is not
  when the row is put back to EXPIRING (`KickRaceCases.RaceRemovesAPaidUpSubscriber`,
  `KickRaceCases.LateReminderRemovesAPaidUpSubscriber`).
- app/db/repositories.py:258-261 says that a renewal lets the next cycle have all three reminders again. If the renewal
  comes during a visit, it does exactly when the visit has nothing to send or does not deliver
  (`Reminders.RenewedPeriodExactly`; over every run, `Reminders.PeriodGetsAllThreeExactly`). A reminder delivered for d
  days leaves the new period only those for fewer days (an instance, `Reminders.StaleVisitSpoilsTheNextCycle`).

## Model

| member | source | states |
|---|---|---|
| `Clock.DaysRemainingMeaning` | app/domain/time.py:23-27 | at most d days remain exactly when the expiry is at most d days away, for every d of at least one |
| `Clock.DaysRemainingNextDay` | app/domain/time.py:23-27 | a day later one day fewer remains, down to one |
| `Clock.Calendar` | app/services/payment_service.py:35 | a day is 86 400 000 000 microseconds, the period one payment buys 2 592 000 000 000, and the reminder window 259 200 000 000 |
| `StateMachine.MovesAreOneStepOrBack` | app/domain/subscription.py:7-19 | the allowed moves are to ACTIVE from anywhere, and one step on from PENDING, ACTIVE, EXPIRING, EXPIRED to KICKED |
| `StateMachine.KickedIsReachedOneHopAtATime` | app/domain/subscription.py:7-19 | any allowed history that reaches KICKED ends ACTIVE, EXPIRING, EXPIRED, KICKED |
| `StateMachine.PendingOnlyComesFirst` | app/domain/subscription.py:7-19 | no allowed history returns to PENDING |
| `Rows.EventKeepsSound` | app/jobs/expiration_warnings.py:55-112 | whatever happens to a row next, a renewal or any one transaction, send, check or call of either job, the row, the jobs' progress and the delivered reminders stay consistent |
| `Rows.RowOkExactly` | app/services/payment_service.py:80-102 | a row is in order (no expiry exactly when PENDING, closed rows are over, EXPIRING rows have at most three days, a remembered reminder is 1 to 3 and never on a PENDING or ACTIVE row) exactly unless a job that listed it before its latest renewal moved it early, recorded a reminder late, or closed it early |
| `Rows.CycleOkExactly` | app/jobs/expiration_warnings.py:79-112 | once recorded, the row remembers the last delivered reminder of its period exactly unless all it remembers was sent before the period |
| `Rows.PutBackExactly` | app/jobs/auto_kick.py:50-66 | the second hop is refused exactly when the row was renewed after listing and not put back to EXPIRING since, by one of three causes; a renewed row is closed exactly through one of them |
| `Ledger.OwnedBy` | app/db/repositories.py:359-372 | the payment found is the first that points at the row, and none is found only if none does |
| `Ledger.SomeLatestLive` | app/db/repositories.py:173-208 | whenever there is a live row, one of them comes first by expiry |
| `Effects.ActivationActivates` | app/services/payment_service.py:105-147 | an activation, spelled out in the tables: the payer, registered if need be, has 2 592 000 000 000 microseconds more on their row that lasts longest, or from now on a fresh row; the payment as given is on record for that row; one grant; nothing else differs |
| `Effects.ScreenshotRecords` | app/handlers.py:245-257 | a screenshot, spelled out in the tables: the sender has a fresh PENDING row, and its payment is on record for that row exactly when the key was free |
| `Effects.ConfirmationConfirms` | app/services/payment_service.py:236-271 | a confirmation, spelled out in the tables: thirty days more for the owner, on the row that lasts longest or else the placeholder; exactly the placeholder's payments move; one grant, for its first payment; nothing else differs |
| `Invariants.RowStep` | app/db/repositories.py:232-272 | every event acts on each row, and on the jobs' progress there, as one allowed event of the row's own machine, or not at all |
| `Invariants.RowFrame` | app/db/repositories.py:232-272 | no event changes a row's owner, moves its expiry without renewing it, renews a closed row, or makes a row live otherwise |
| `Invariants.StepKeepsActs` | app/services/payment_service.py:64-77 | the row of every activation ever made still is its user's, and still lasts at least as long as was then granted |
| `Invariants.StepKeepsRows` | app/services/payment_service.py:80-102 | every event keeps every row, the jobs' progress there and its delivered reminders consistent |
| `Invariants.StepKeepsKeys` | app/db/models.py:96-104 | the (provider, reference) key stays unique |
| `Invariants.StepKeepsDrafts` | app/handlers.py:245-257 | a placeholder awaiting its payment stays PENDING and unpaid |
| `Invariants.StepKeepsPendingOwnsOne` | app/handlers.py:246-257 | a PENDING row never owns two payments |
| `Invariants.StepKeepsActivatedIsPaid` | app/services/payment_service.py:117-147 | a row past PENDING always owns a payment |
| `Invariants.RunKeepsInv` | app/services/payment_service.py:105-147 | references, keys, drafts, payments and history are in order in every world that any run reaches, whatever the jobs' single transactions are interleaved with |
| `Invariants.RunKeepsRows` | app/jobs/expiration_warnings.py:55-134 | over every run, with renewals between any two transactions of either job, all rows stay consistent |
| `Invariants.RowsInOrderExactly` | app/jobs/expiration_warnings.py:64-112 | in every world that any run reaches, a row is out of order exactly when a job that listed it before its latest renewal moved it early, recorded a reminder on it late, or closed it early |
| `Invariants.AnyOrderedTableIsAStart` | app/db/models.py:62-84 | any table whose rows are in order can start a run |
| `Invariants.ClosedForever` | app/services/payment_service.py:54-61 | an EXPIRED or KICKED row never becomes live again, and keeps its expiry and owner, over every run |
| `Invariants.StepLiveRows` | app/services/payment_service.py:38-61 | an event adds a live row only for a user who has none |
| `Invariants.LiveRowsNeverMultiply` | app/services/payment_service.py:38-61 | over every run a user's live rows never exceed one, or what a damaged start had |
| `PaidTime.RenewalIsOnTop` | app/services/payment_service.py:64-77 | the renewal of the chosen row moves the latest expiry of the user to max(now, it) + 30 days, unless a closed row that lies ahead outranks all live ones; then it falls short of that |
| `PaidTime.StepRefinesScalar` | app/services/payment_service.py:64-102 | an activation by any path sets paid-until to max(now, paid-until) + 30 days for the buyer exactly unless they are outranked, and to less if they are; no other event or user is affected |
| `PaidTime.RunRefinesScalar` | app/services/payment_service.py:38-102 | over every run, from any start, the table agrees throughout with one scalar per user fed the user's purchase times exactly when the user is not outranked at any purchase; the times are in order |
| `PaidTime.NeverMoreThanBought` | app/services/payment_service.py:64-102 | over every run, outranked or not, nobody is ever paid for longer than the scalar says |
| `PaidTime.WindowsConserveTime` | app/services/payment_service.py:64-77 | the granted periods are thirty days each, start no earlier than their purchase, and do not overlap |
| `PaidTime.PaidUntilClosedForm` | app/services/payment_service.py:64-77 | paid-until is the latest of: bought at t, and everything from then on back to back |
| `PaidTime.PaidUpMeansInAWindow` | app/services/payment_service.py:64-77 | someone is paid up exactly when now lies in a granted period or in what was paid before |
| `PaidTime.PaidUpExactly` | app/jobs/auto_kick.py:141-152 | a user is paid up exactly when a live row outlasts now, or a row that was closed although it had been renewed does |
| `PaidTime.AccessSeenExactly` | app/jobs/auto_kick.py:149-152 | in every reachable world, looking at the latest live row alone finds access exactly when some live row outlasts now |
| `PaidTime.UnwalkedStaysInFront` | app/jobs/auto_kick.py:50-66 | a user none of whose rows was closed although renewed has never been outranked, in all of the run |
| `PaidTime.AccessIsWhatWasBought` | app/services/payment_service.py:38-102 | in every world reached, whoever has access has bought it; if never outranked, now lies in a period bought exactly when the user has access or lost it with a row closed although renewed |
| `Accounting.PaymentsPersist` | app/db/repositories.py:415-433 | over every run no payment is lost, altered, or moved to another user |
| `Accounting.StepSpends` | app/services/payment_service.py:127-141 | an activation spends exactly one payment not spent before, and no other event spends or restores any |
| `Accounting.PaymentsMatchActivations` | app/services/payment_service.py:105-147 | the payments behind a user's activated rows grow by exactly the number of the user's activations |
| `Accounting.NoPaymentActivatesTwice` | app/services/payment_service.py:236-271 | over every run no two activations are for the same payment, and each is for a payment its user owns |
| `Accounting.SettledForever` | app/services/payment_service.py:243-251 | a placeholder that cannot be confirmed any more never can be again |
| `Accounting.ConfirmedOnlyOnce` | app/services/payment_service.py:236-271 | after a confirmation every later one of the same placeholder changes nothing, in every continuation |
| `Accounting.ConfirmableExactly` | app/services/payment_service.py:243-251 | at the end of any run a placeholder can be confirmed exactly when it could at the start and the run did not confirm it |
| `Accounting.ConfirmationCredits` | app/services/payment_service.py:248-271 | confirming a placeholder grants its owner one period, for the placeholder's own payment, and thirty days (2 592 000 000 000 microseconds) exactly unless they are outranked |
| `Accounting.ScreenshotCreditsItsSender` | app/handlers.py:245-313 | whatever happens in between, a screenshot can be confirmed exactly when its key was free and it was not confirmed before; there is a row to confirm it on, and the confirmation is accepted and grants the sender a period for the payment the screenshot recorded |
| `Reminders.RemindersCountDown` | app/jobs/expiration_warnings.py:55-112 | for any job times, delivery failures and interleaving, between two activations the delivered days count strictly down in 3, 2, 1; once recorded the row remembers the last exactly unless all it remembers was sent before the period |
| `Reminders.AtMostThree` | app/jobs/expiration_warnings.py:115-123 | at most three reminders per period |
| `Reminders.FailedDeliveryIsRetried` | app/jobs/expiration_warnings.py:88-112 | after a failed delivery any later visit sends, and leaves behind, what it would have anyway |
| `Reminders.UninterruptedVisit` | app/jobs/expiration_warnings.py:55-112 | left alone, the listing, hop, send and record of a visit amount to the visit in one go, and change no other row |
| `Reminders.DailyCountdown` | app/jobs/expiration_warnings.py:55-112 | from any run inside the window, and whatever reminder the row remembers, daily runs deliver every remaining day once, or those after the remembered one |
| `Reminders.DailyReminders` | app/jobs/expiration_warnings.py:115-134 | daily runs from before the window deliver 3, 2, 1, less the days a remembered reminder suppresses, for every phase of the expiry |
| `Reminders.DailyRemindersAreComplete` | app/jobs/expiration_warnings.py:115-134 | they deliver exactly 3, 2, 1 if and only if no reminder for one of these days is on record when they start, for every phase of the expiry, the aligned one included |
| `Reminders.ScheduleDelivers` | app/jobs/expiration_warnings.py:115-134 | the daily schedule, played on the ledger, delivers just that |
| `Reminders.PeriodGetsAllThreeExactly` | app/db/repositories.py:255-272 | in every world that any run reaches, a daily job left alone from before a row's window delivers all three reminders exactly when none is on record; strictly before the window, exactly unless a visit that listed the row before its latest renewal recorded after it, or the record is from before the history |
| `Reminders.VisitAmidRenewalsExactly` | app/jobs/expiration_warnings.py:55-112 | with renewals before the hop, during the send and before the record, at any times: a visit with something to send leaves a row that ends as EXPIRING (hopped or never renewed, and not renewed later) in order unless a renewal before the hop has it last for more than three days, and a row that ends as ACTIVE in order unless it delivered; the cycle exactly unless renewed between delivery and record; once renewed, the row remembers a reminder exactly when the visit delivered one |
| `Reminders.RenewedPeriodExactly` | app/db/repositories.py:255-272 | a period renewed at any point of a visit gets exactly 3, 2, 1 from a daily job exactly when the visit had nothing to send or did not deliver; else only the days after the visit's reminder |
| `Reminders.VisitInOneGo` | app/jobs/expiration_warnings.py:55-112 | whatever has become of a row since it was listed, an uninterrupted visit's transactions do to it what the visit does in one go by what was listed |
| `Reminders.StaleVisitExactly` | app/jobs/expiration_warnings.py:55-112 | after a renewal between query and an uninterrupted visit, the visit leaves the row in order exactly when it was listed EXPIRING and the reminder is not delivered or the listed one makes it unnecessary, and no reminder on record exactly in the latter two cases |
| `Reminders.StaleVisitSpoilsTheNextCycle` | app/jobs/expiration_warnings.py:55-112 | an instance: the reminders for three and two days of the new period are never sent |
| `KickBatch.WalkIsAllOrNothing` | app/jobs/auto_kick.py:41-66 | the walk succeeds exactly when the row still has the status it was listed with, and otherwise leaves it alone |
| `KickBatch.KickAllInClosedForm` | app/jobs/auto_kick.py:155-226 | each candidate's outcome depends only on the store the run started from |
| `KickBatch.BatchClosesExactlyTheExpired` | app/jobs/auto_kick.py:212-228 | a run leaves KICKED exactly the live rows past their expiry, none remain, and a second run finds nothing |
| `KickBatch.BannedExactlyWhen` | app/jobs/auto_kick.py:97-138 | a subscriber is banned, or messaged, exactly when a candidate of theirs is closed and none of the exemptions applies |
| `KickBatch.OnlyTheUnpaidAreRemoved` | app/jobs/auto_kick.py:141-193 | with side effects on, a user is banned exactly when they own an expired live row, are not shown to be an administrator, and are not paid up or have their paid time only on a row that an earlier run closed although renewed |
| `KickBatch.CallsConcernTheUnserved` | app/jobs/auto_kick.py:97-138 | every call of a run concerns a member one of whose rows is closed while nothing else gives them access, and exactly these are looked up if a channel is configured |
| `KickBatch.AllCallsInTurn` | app/jobs/auto_kick.py:121-138 | each ban directly follows a lookup of the same member, each unban a ban of theirs reported as done, and each ban so reported is directly followed by that unban |
| `KickBatch.OrderDoesNotMatter` | app/jobs/auto_kick.py:212-226 | any order of the candidates makes the same calls, each as often |
| `KickBatch.StoreIgnoresTelegram` | app/jobs/auto_kick.py:155-209 | runs that differ in configuration, protection and Telegram's answers end in the same store |
| `KickBatch.DryRunOnlyLooks` | app/jobs/auto_kick.py:113-119 | a dry run makes no ban, unban or message call |
| `KickBatch.OneRemoval` | app/jobs/auto_kick.py:121-138 | with a call's effect and its report told apart, a removal bans its subscriber when the ban takes effect and no unban does, clears them when a ban reported as done is followed by an unban that takes effect, and changes nothing otherwise |
| `KickBatch.LeftBannedExactlyWhen` | app/jobs/auto_kick.py:6-8 | after a run a subscriber is left banned exactly when a removal banned them without an effective unban and no later one cleared them |
| `KickBatch.FailuresLeaveABan` | app/jobs/auto_kick.py:125-138 | an instance: a subscriber stays banned when the unban fails, and also when the reply to an effective ban is lost, so that no unban is sent |
| `KickRace.CheckFinds` | app/jobs/auto_kick.py:141-193 | the check finds other access exactly when the owner has a live row beyond now |
| `KickRace.StepKeepsChecks` | app/jobs/auto_kick.py:177-193 | between check and ban, whatever happens, each live row of the user is over, or lasts no longer than what was granted since the check |
| `KickRace.PaidUpAtBanExactly` | app/jobs/auto_kick.py:97-138 | between check and ban a user is paid up exactly when a row closed although renewed lies ahead, or they were granted access beyond now since the check |
| `KickRace.OutcomeOfCandidate` | app/jobs/auto_kick.py:155-193 | the first hop is refused exactly when a reminder visit moved the row first, the second exactly when it was renewed and not put back, the third never; the check is right; whoever is about to be banned is paid up exactly when a row closed although renewed and put back lies ahead, or they paid since the check |
| `KickRace.KickAgainstRenewals` | app/jobs/auto_kick.py:155-226 | all of this holds of every row in every world reached by any interleaving of both jobs' single steps with payments, renewals and confirmations, however long anything takes |
| `KickRace.BatchPointsByCalls` | app/jobs/auto_kick.py:97-138 | a candidate ends banned exactly when its calls include a ban, and served exactly when it has no calls |
| `KickRace.LeftAloneItIsTheBatch` | app/jobs/auto_kick.py:212-226 | without interleaving, the job is a run of the ledger that closes what the batch closes, and each candidate ends banned, or with access found, exactly as the batch's calls for it say |
| `KickRace.LaterRunHandlesExactly` | app/jobs/auto_kick.py:212-228 | after a complete later run, a row that is over is KICKED and its owner decided about exactly unless an earlier run stopped at it past its second hop, or it was closed before the history starts |
| `KickRace.LaterRunHandlesUser` | app/db/repositories.py:342-354 | the same for all rows of a user that are over |
| `KickRace.StoppedForever` | app/db/repositories.py:342-354 | a row at which a run stopped past its second hop is never taken up by anything but that run |
| `KickRaceCases.RaceRemovesAPaidUpSubscriber` | app/jobs/auto_kick.py:50-66 | an instance: listed ACTIVE, renewed before the first hop, banned with thirty days to go |
| `KickRaceCases.LateReminderRemovesAPaidUpSubscriber` | app/jobs/expiration_warnings.py:64-68 | an instance: renewed between the first two hops, put back to EXPIRING by a reminder visit that listed the row earlier, banned with thirty days to go |
| `KickRaceCases.SlowRunRemovesAPaidUpSubscriber` | app/jobs/expiration_warnings.py:64-68 | an instance: a removal job held up for 27 days meets the renewed period's own reminder |
| `KickRaceCases.PaymentAfterTheCheckIsNotSeen` | app/jobs/auto_kick.py:177-193 | an instance: paid between the check and the ban, and banned |
| `KickRaceCases.WalkedRowsCostPaidDays` | app/services/payment_service.py:38-77 | whoever buys again after a renewed row of theirs was closed, without a live row, ends up paid for less than they bought |
| `KickRaceCases.PaidDaysAreLost` | app/jobs/auto_kick.py:50-66 | an instance: a run from an agreeing start on which table and scalar do not agree throughout: two payments, paid for thirty days |
| `Webhook.EarlyReply` | app/web/stripe_webhook.py:102-155 | for each early reply, exactly when it is given, and that the transaction is tried exactly for a paid, identified session whose key is free |
| `Webhook.ExactlyOnce` | app/web/stripe_webhook.py:109-180 | for any handlers and notifications: one payment, one winner and one confirmation per session, every new payment has its winner, with its amount and currency, and a paying delivery not told to come back is on record |
| `Webhook.PayersAreCredited` | app/web/stripe_webhook.py:144-173 | over every run, each grant for a checkout payment not on record at the start is to the payer named by a winning delivery of the session, for its amount and currency |
| `Webhook.OneActivationPerSession` | app/web/stripe_webhook.py:157-173 | no two activations are for the same session |
| `Webhook.FirstPerSessionIsOnce` | app/web/stripe_webhook.py:109-122 | the log without repeats activates each session at most once |
| `Webhook.RepeatsDoNotCount` | app/services/payment_service.py:144-153 | leaving out the repeats of a log changes nothing |
| `Webhook.OnlyFirstDeliveriesCount` | app/web/stripe_webhook.py:109-180 | the ledger is what the first transaction of each session, in commit order with everything else, would have made of it |
| `Webhook.TryActivation` | app/web/stripe_webhook.py:157-173 | a failing or losing transaction changes nothing; a winning one gives the named payer thirty days more and records provider "stripe", the session, the amount and the currency |
| `Webhook.HandleStripeWebhook` | app/web/stripe_webhook.py:72-180 | the reply, who is sent a confirmation, who has thirty days more, and which payment is on record, for one delivery without interruption |
| `Repositories.Database.GetOrCreateUser` | app/db/repositories.py:85-114 | the user with this telegram id, registered if new |
| `Repositories.Database.GetActiveOrExpiringForUser` | app/db/repositories.py:173-208 | the live row with the latest expiry, or none when there is none |
| `Repositories.Database.CreateSubscription` | app/db/repositories.py:211-229 | a fresh PENDING row without an expiry |
| `Repositories.Database.UpdateStatus` | app/db/repositories.py:232-252 | changes status, and expiry if given, only by an allowed transition of an existing row |
| `Repositories.Database.SetLastWarningDaysLeft` | app/db/repositories.py:255-272 | records or clears the last reminder |
| `Repositories.Database.ListExpiringWithin` | app/db/repositories.py:275-291 | exactly the live rows that expire within the window, each once |
| `Repositories.Database.ListExpired` | app/db/repositories.py:342-354 | exactly the live rows past their expiry, each once |
| `Repositories.Database.CreatePayment` | app/db/repositories.py:375-412 | inserts a payment unless its provider and reference are taken |
| `Repositories.Database.RepointSubscription` | app/db/repositories.py:415-433 | moves all payments of one row onto another |
| `Duplicates.GroupByUser` | app/db/repositories.py:336-338 | the dictionary maps each user that occurs to all of their ids in order, its keys in order of first appearance |
| `Duplicates.GroupDuplicates` | app/db/repositories.py:336-339 | each user with more than one id is reported once, with all of them; in order, if the rows are |
| `Duplicates.ReportIsInOrder` | app/db/repositories.py:336-339 | with the rows in order of id, each user's ids are reported in order, and the users in the order of their first ids |
| `Duplicates.ListUsersWithMultipleLiveSubscriptions` | app/db/repositories.py:314-339 | reports exactly the users with more than one live row, with all their live rows, in order of id and of first id |
| `Duplicates.EmptyReportMeansNoDuplicates` | app/db/repositories.py:314-339 | the report is empty exactly when everyone has at most one live row |
| `PaymentService.FindOrCreateSubscription` | app/services/payment_service.py:38-61 | the latest live row, or a fresh one when there is none |
| `PaymentService.ActivateRow` | app/services/payment_service.py:80-102 | gives the row thirty days more and clears the reminder, or changes nothing when the transition is not allowed |
| `PaymentService.ActivateSubscription` | app/services/payment_service.py:105-167 | thirty days more for the payer and the payment on record, or nothing at all when the payment's key is taken: the registered user and the fresh row are rolled back too |
| `PaymentService.ConfirmManualPayment` | app/services/payment_service.py:200-271 | confirms exactly a PENDING row that a payment points at, with thirty days more for its owner; otherwise nothing changes |
| `PaymentService.ReceiveScreenshot` | app/handlers.py:245-257 | registers the sender, creates a placeholder of theirs and puts its payment on record; a taken key leaves the placeholder unpaid |
| `AutoKick.AdvanceToKicked` | app/jobs/auto_kick.py:41-66 | hops one update at a time, as planned from the listed status |
| `AutoKick.FindOtherLiveSubscription` | app/jobs/auto_kick.py:141-152 | finds access exactly when a live row outlasts now and no live row without an expiry comes first; the row found is the latest |
| `AutoKick.RemoveFromChannel` | app/jobs/auto_kick.py:97-138 | the calls made to Telegram, one by one: lookup, ban, unban of the given member, each under its condition |
| `AutoKick.KickOne` | app/jobs/auto_kick.py:155-209 | the store and the calls after one candidate, the last of them the message to the owner unless nobody is to be told |
| `AutoKick.KickCandidates` | app/jobs/auto_kick.py:225-226 | the store and the calls after the loop over the candidates |
| `AutoKick.RunAutoKick` | app/jobs/auto_kick.py:212-228 | the store and the calls after a run: exactly the expired rows closed, each decision taken from the initial store, lookups, bans and unbans in turn and for exactly the members concerned; the whole is a run of the ledger |
| `Warnings.WarnOne` | app/jobs/expiration_warnings.py:55-112 | the row, the delivered reminder and its recipient after one visit, from the row as listed; nothing is delivered when the user record is missing |
| `Warnings.OutcomeInNumbers` | app/jobs/expiration_warnings.py:55-112 | what a visit in one go makes of a row, in microseconds: EXPIRING if it expires within three days, and a reminder exactly for the number of days begun, unless one for as few is on record |
| `Warnings.RunExpirationWarnings` | app/jobs/expiration_warnings.py:115-134 | one reminder to the owner of each row to which one is due, in microseconds, and to nobody else; each row becomes what it should and no other changes; unless an earlier run died before recording a reminder, the whole is a run of the ledger |
| `Splitter.GreedyIsSplit` | app/handlers.py:479-496 | the messages' lines are the lines in order, each message within the limit or a single over-long line |
| `Splitter.GreedyIsMinimal` | app/handlers.py:479-496 | no allowed way to cut the lines uses fewer messages |
| `Splitter.JoinedSpells` | app/handlers.py:488-495 | the text of a message consists of its lines in order, each at its place, with a newline between any two, and of nothing else |
| `Splitter.OnlyOneSpelling` | app/handlers.py:488-495 | there is only one such text |
| `Splitter.NoFewerChunks` | app/handlers.py:479-496 | no other way to send the lines as such texts within the limit uses fewer messages |
| `Splitter.SplitIntoChunks` | app/handlers.py:479-496 | the messages sent are texts that hold the lines in order with newlines between, within the limit unless a single line, and no fewer would do; the tracked length equals the joined length |

## Left out

- Telegram, keyboards, texts, media and conversation state: input and output; only the calls that matter are traced.
- Signature verification, JSON decoding, a missing webhook secret, and the creation of checkout sessions: notifications enter decoded.
- Sessions, locking and isolation: transactions are atomic, and two overlapping activations of one user are not modelled.
- The savepoint for two concurrent registrations of one new user: registration is part of one atomic step.
- A crash between sending a reminder and recording it, or a commit whose outcome the handler does not learn.
- Two runs of the same job at once: the scheduler starts none while one is running.
- A reminder that arrives although its send is reported as failed: only reported deliveries are counted.
- The row objects' identity: rows are values in the tables of the `Database` class, so aliasing of loaded objects is not captured.
- The price, decimal conversion, date texts and plurals, and the question rate limit: one-branch facts.
- The subscriber report's totals, the invite command and the resolution of forwarded messages: reporting around the same ledger.
- The channel invitation after a payment: it never affects the ledger; only the confirmation attempt is modelled.
- The row order of queries that ask for none: rows of the report of duplicates are taken in order of id.
- Configuration, migrations, scheduler registration and deployment.
- `RunExpirationWarnings`: not shown to be a run of the ledger when an earlier run died between sending a reminder and recording it.

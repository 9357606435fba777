# CRM API: a verified model

This project models the parts of the CRM API that keep state under concurrency or follow rules over whole
histories, and proves what they guarantee. `dafny verify dfyconfig.toml` checks all of it.

The system takes leads in (Meta webhooks and reconciliation, sheet import, the CRM itself), moves them through
calls and visits, turns them into projects with contracts and payments, and tells people about new leads.

| File | Component |
|---|---|
| `Booking.dfy`, `BookingDesk.dfy` | appointment booking as interleaved transactions, and the handlers that run it |
| `Delivery.dfy` | outbox delivery under leases, with crashed and late workers; one dispatcher's sweep |
| `Outbox.dfy` | who is told of a lead, and the rows that say so |
| `MetaInbox.dfy`, `MetaWorker.dfy` | the Meta lead inbox: claims, upserts, retries; the worker and the webhook |
| `Reconcile.dfy` | paging a Meta form and adding the leads the webhook missed |
| `Idempotency.dfy` | idempotent requests over a shared key table |
| `Ledger.dfy`, `LedgerBook.dfy`, `ProjectCard.dfy`, `Money.dfy` | the project ledger and stage, what each request accepts and writes and the book a run keeps, its handlers, printing amounts |
| `LeadModel.dfy`, `EventCorrection.dfy`, `LeadState.dfy`, `LeadDesk.dfy` | a lead's status fields, corrections of its timeline, every writer of them, and those writers' code |
| `LeadEffects.dfy` | what each of those requests accepts and writes, field by field |
| `LeadImport.dfy` | those writers together with repeated sheet imports |
| `ClientMerge.dfy` | merging duplicate clients and following the redirects |
| `SheetImport.dfy` | grouping sheet rows into leads |
| `RateLimiter.dfy` | the sliding-window request limiter |
| `Cursor.dfy`, `Paging.dfy` | the list cursor, keyset paging, the project board |
| `Funnel.dfy` | the sales funnel report |
| `Prelude.dfy` | `Option` and `Result` |

Three shapes recur. A protocol with several actors is a state, an `Event` for every statement that may interleave,
a `Next` function and a `Run` over any sequence of events; its theorems are about every run. The handlers of the
same component are methods over the fields they write, proved equal to those steps, so the theorems are about them.
Loops over lists and buffers are methods proved against a property of the input. Beside the theorems over runs, a lemma
per request states which ones are accepted and what they leave, in the stored fields alone (names ending in `Is` or
`Writes`).

## What turned out not to hold

The model follows the code. Where the code does not do what its documentation or a caller would expect, a lemma
names the case, and where there is a condition it is exact.

- The legacy showroom booking of an activity takes no advisory lock and does not probe. Two of them can overlap
  (`Booking.LegacyDoubleBooks`), and one that commits on a free slot can be overlapped by a booking that was probed before
  it (`Booking.LegacyDefeatsProbe`). After its commit the calendar stays disjoint exactly when its slot was free and no
  probed booking in flight meets it (`Booking.LegacyKeepsDisjointIff`), and a run with any number of them stays safe
  throughout exactly when each was so (`Booking.RunStaysDisjointIff`).
- Delivery is at least once. A claimed row that nobody has settled can be claimed again exactly when the last claim's
  lease is over and the sweep takes rows of its status (`Delivery.ReclaimIff`); then both workers send, and only the
  second one's mark counts (`Delivery.LateWorkerSendsTwice`).
- The workflow contract says that v2 never shows a stale status (docs/CRM-V2-WORKFLOW-CONTRACT.md:20-22). Three requests
  put the v2 status out of step with the v1 fields: booking a visit other than the one it names, a v2 call result on a
  lead that is not new, and creating a project. `LeadState.StepFreshIff` says for every request exactly when the status
  is in step after it, `LeadState.RunFreshIff` for every run; `LeadState.V2ThinkingDoesNotPin` and
  `LeadState.V2CallDoesNotPin` are runs that end out of step.
- The sheet import writes a call status and not the v2 status. It breaks the mirror exactly when the v2 status is
  new, later or noanswer (`LeadImport.ImportKeepsMirrorIff`, reached in `LeadImport.ImportCanBreakMirror`), and puts the
  v2 status out of step exactly for a new client not yet reached (`LeadImport.ImportKeepsFreshIff`). After any run of
  requests and imports all invariants hold exactly when no import broke the mirror since it was last restored
  (`LeadImport.InvAfterImportsIff`).
- Two leads of one sheet can get the same external id (`SheetImport.IdsCanCollide`), exactly when the first rows of two
  groups carry the same source key (`SheetImport.IdsDistinctIff`).
- The v2 status `project` is not permanent: it is lost exactly by a correction that the lead follows
  (`LeadState.ProjectStaysIff`), then never comes back (`LeadState.RunKeepsProjectIff`), and such a correction is
  reachable (`LeadState.ProjectStatusCanBeLost`).
- Undoing a correction does not always undo its effect on the lead. Through "thinking" and back the client status
  returns only when the entry remembers it (`EventCorrection.ThinkingThereAndBack`); between call kinds the no-answer
  counter returns unless a v1 no-answer left it at zero (`EventCorrection.CallThereAndBack`).
- A payment limit computed from an overpaid balance admits too much, except where it is zero
  (`Ledger.LimitIsExactIff`); no reachable balance is overpaid, so there it is exact (`Ledger.MaxPaymentIsExact`,
  `Ledger.PaymentAcceptedIff`).
- A new lead can end up on a tombstone. Its insert is matched to a client without a lock, and a merge that comes before
  the insert takes the row's lock buries that client (`ClientMerge.MergeBetweenMatchAndInsert`). That is exactly when it
  happens (`ClientMerge.StoredLinkIsLiveIff`, `ClientMerge.AllLiveIff`), no later merge repairs it
  (`ClientMerge.DeadLinkStays`), and the link still leads to the right client (`ClientMerge.LinksResolve`).
- The rate limiter reads its clock before it takes the mutex. With calls that overtake each other by up to `lag`, the
  limit holds for windows shorter by the lag (`RateLimiter.AnyWindowHoldsAtMostLimit`). For full windows it holds exactly
  when there is no lag or the limit is one (`RateLimiter.FullWindowsHoldIff`); any lag can let almost twice the limit
  through (`RateLimiter.OvertakenCallsBreakWindow`).
- Following a merged client gives up after ten redirects, and merges can make longer chains
  (`ClientMerge.AnyDepthIsReachable`).
- The one handler that commits its idempotency key without a response spends the key for good
  (`Idempotency.UnfinishedKeyIsSpent`).
- Two shares of a whole can print as 101 percent, exactly when both lie on a half (`Funnel.PercentsAddUp`).

## Model

| member | source | states |
|---|---|---|
| Booking.PlanUpdate | internal/crmapi/appointments.go:688-741 | the guards of an update in their order, the row it writes, and whether the manager is probed again |
| Booking.UpdateNeverReschedules | internal/crmapi/appointments.go:886-895 | no accepted update puts a closed visit back on the calendar, and an update that skips the probe keeps the slot |
| Booking.UpdateIs | internal/crmapi/appointments.go:688-741 | an update is accepted for the current version and a visit that may still change; it writes each field asked for or the old one, with the length asked for or the old one in whole minutes; the manager is asked again exactly when a scheduled visit changes start, end or manager |
| Booking.StepKeepsInv | internal/crmapi/appointments.go:443-793 | every statement of every transaction keeps: probed writes still hold their manager's key, written rows are locked, leads with a pending visit are locked |
| Booking.CommitKeepsProbe | internal/crmapi/appointments.go:475-494 | no commit of another transaction, unless it is a harmful legacy one, adds a clash to a booking that has been cleared |
| Booking.CommitKeepsOnlyVisit | internal/crmapi/appointments.go:540-553 | no commit of another transaction schedules a second visit of a kind for a lead whose row is locked |
| Booking.CommitMakesNoOverlap | internal/crmapi/appointments.go:639-793 | two scheduled visits of a manager that overlap after a cleared commit overlapped before it |
| Booking.CommitMakesNoDouble | internal/crmapi/appointments.go:540-553 | a lead with two scheduled visits of one kind after a commit had them before it |
| Booking.ConflictsOnlyDisappear | internal/crmapi/appointments.go:443-793 | for every interleaving of creates, updates, cancellations, legacy bookings and rollbacks and any start table, a double booking of a lead seen later was there earlier, and so was an overlap unless a harmful legacy booking was committed |
| Booking.DisjointStaysDisjoint | internal/crmapi/appointments.go:443-793 | from a calendar without overlaps no interleaving without a harmful legacy commit reaches one with an overlap |
| Booking.ProbeIsExact | internal/crmapi/appointments.go:451-494 | the probe lets a booking go on exactly when committing it would overlap nothing |
| Booking.BusyIs | internal/crmapi/appointments.go:451-475 | busy means a scheduled visit of the manager, other than this one, that starts before the end and ends after the start |
| Booking.AlreadyActiveIs | internal/crmapi/appointments.go:540-553 | a second visit means a scheduled one of the lead and the kind, office work aside |
| Booking.CancelRowWrites | internal/crmapi/appointments.go:1022-1070 | a cancellation takes exactly a scheduled row of its lead and kinds that nobody holds |
| Booking.OverlappingIs | internal/crmapi/appointments.go:462-470 | two visits that take time overlap exactly when some moment lies in both |
| Booking.StaysDisjointIff | internal/crmapi/appointments.go:443-793 | from any reachable state every run without legacy commits stays disjoint exactly when the table is disjoint and no booking in flight clashes with it |
| Booking.LegacyKeepsDisjointIff | internal/crmapi/appointments.go:1075-1132 | committing a legacy booking keeps every later run without another one disjoint exactly when its slot is free and no probed booking in flight meets it |
| Booking.RunStaysDisjointIff | internal/crmapi/appointments.go:1075-1132 | a run with any number of legacy bookings has that property in every state exactly when each of its legacy commits had it |
| Booking.LegacyDoubleBooks | internal/crmapi/appointments.go:1075-1132 | two legacy bookings of one manager at one time both succeed |
| Booking.LegacyAlone | internal/crmapi/appointments.go:1075-1132 | undisturbed, a legacy booking takes an hour from the start asked for, over the lead's scheduled showroom visit or as a new one |
| Booking.LegacyDefeatsProbe | internal/crmapi/appointments.go:1075-1132 | a legacy booking commits on a free slot between the probe and the commit of another booking, and the two overlap |
| Booking.ProbedIsReachable | internal/crmapi/appointments.go:496-637 | the state that run starts from is reached by a create from the empty calendar |
| BookingDesk.CreateAlone | internal/crmapi/appointments.go:496-637 | the protocol steps of a create, undisturbed: refused for an invalid duration, an active visit or a busy manager, else exactly the planned row |
| BookingDesk.UpdateAlone | internal/crmapi/appointments.go:639-793 | the protocol steps of an update, undisturbed: the planned row, or nothing when a guard or the probe refuses |
| BookingDesk.Calendar.ManagerFree | internal/crmapi/appointments.go:451-494 | free exactly when no other scheduled appointment of the manager meets the range |
| BookingDesk.Calendar.Create | internal/crmapi/appointments.go:496-637 | the handler is its sequence of protocol steps; each refusal has its exact condition, and an acceptance adds exactly the visit asked for |
| BookingDesk.Calendar.Update | internal/crmapi/appointments.go:639-793 | the handler is its sequence of protocol steps; each refusal has its condition, and an acceptance changes that visit to what was asked for |
| BookingDesk.Calendar.CancelForLead | internal/crmapi/appointments.go:1022-1070 | exactly the lead's scheduled visits of the kinds are cancelled, each once, and nothing else changes |
| BookingDesk.CancelAlone | internal/crmapi/appointments.go:1022-1070 | cancelling rows one by one in any order and committing gives that table |
| Delivery.RetryMillis | internal/notifications/dispatcher.go:293-308 | a retry is at least a millisecond away |
| Delivery.FailedRowWaits | internal/notifications/dispatcher.go:196-308 | a failed row is taken up again exactly by a sweep that includes failures, with attempts left, after its delay |
| Delivery.StepKeepsInv | internal/notifications/dispatcher.go:186-308 | any claim or mark of any worker keeps: a token on a row was drawn for it and its holder's attempts are the stored ones, at most ten |
| Delivery.SupersededMarkIsVoid | internal/notifications/dispatcher.go:283-308 | a mark whose token is not the row's changes nothing |
| Delivery.SupersededForever | internal/notifications/dispatcher.go:283-308 | a superseded or used token never matches again |
| Delivery.AttemptsCountAcceptedMarks | internal/notifications/dispatcher.go:283-308 | over any run attempts grow by exactly one per accepted mark and never past ten |
| Delivery.SentIsFinal | internal/notifications/dispatcher.go:186-291 | a sent row never changes in any run |
| Delivery.LeaseGap | internal/notifications/dispatcher.go:196-225 | two claims of a row without an accepted mark between them are more than five minutes apart |
| Delivery.ReclaimIff | internal/notifications/dispatcher.go:196-225 | a claimed and unsettled row can be claimed again exactly when the last claim is more than five minutes old and the sweep takes rows of its status |
| Delivery.LateWorkerSendsTwice | internal/notifications/dispatcher.go:186-308 | after any second claim the first worker still holds the data it claimed, every mark of it is void, and the second worker's mark counts |
| Delivery.SettledIsClaimThenMark | internal/notifications/dispatcher.go:186-262 | one delivery of the dispatcher is a claim and an accepted mark of the protocol |
| Delivery.NewRowIsClaimable | internal/notifications/dispatcher.go:196-214 | a new row can be claimed in either kind of sweep exactly from the time it was enqueued for |
| Delivery.ClaimWrites | internal/notifications/dispatcher.go:196-225 | which row may be claimed, in its fields and the numbers, and what the claim writes |
| Delivery.MarkWrites | internal/notifications/dispatcher.go:283-308 | a mark of the holder writes the outcome, one more attempt and the wait, frees the row and touches no other |
| Delivery.SettledMeans | internal/notifications/dispatcher.go:227-262 | what each answer of the provider leaves: sent, or failed with its wait |
| Delivery.Dispatcher.constructor | internal/notifications/dispatcher.go:58-78 | a batch size that is not positive becomes twenty |
| Delivery.Dispatcher.Pick | internal/notifications/dispatcher.go:196-214 | the oldest row that is due by its status, attempts, time and claim, if there is one |
| Delivery.Dispatcher.ClaimAndSendOne | internal/notifications/dispatcher.go:186-262 | the oldest due row is settled by the answer, or nothing is due; the remaining attempts drop |
| Delivery.Dispatcher.RunOnce | internal/notifications/dispatcher.go:137-160 | at most a batch; the count of sent rows is exact; attempts are paid for by remaining ones; drained means nothing is due |
| Delivery.Dispatcher.Sweep | internal/notifications/dispatcher.go:111-131 | the sweep ends, sends no more than the attempts that were left, counts the sent rows exactly, and when it drained the outbox nothing is due |
| Outbox.BlankIs | internal/notifications/outbox.go:134-137 | white space is that of Unicode |
| Outbox.TrimIs | internal/notifications/outbox.go:134-137 | trimming removes white space at both ends and leaves none there |
| Outbox.SplitIs | internal/notifications/outbox.go:130-130 | the parts hold no separator and join back to the text |
| Outbox.UniqueIds | internal/notifications/outbox.go:129-145 | exactly the non-blank trimmed ids, each once, in order of first appearance |
| Outbox.DeliveryDestinations | internal/notifications/outbox.go:70-85 | the destinations of an office, without repeats |
| Outbox.Enqueue | internal/notifications/outbox.go:87-127 | the inserts of one lead in order, skipping rows that exist |
| Outbox.EnqueuedExactly | internal/notifications/outbox.go:87-127 | enqueuing adds exactly the missing pairs of lead and destination, each once, and touches no other row |
| MetaInbox.StepKeepsInv | internal/metaleads/processor.go:54-309 | every receive, claim, upsert, commit, abort and failure keeps the four invariants of inbox, keys, histories and notifications |
| MetaInbox.OneLeadPerExternalId | internal/metaleads/processor.go:160-216 | in every run at most one lead per external id, and one exactly when an upsert of it committed |
| MetaInbox.OneNotificationPerDestination | internal/metaleads/processor.go:217-233 | in every run each lead has one notification row per destination of its office and no other |
| MetaInbox.ContactIsFirstFilled | internal/metaleads/processor.go:167-192 | in every run a contact field is the first non-blank value any committed upsert carried |
| MetaInbox.RemembersMore | internal/metaleads/processor.go:173-192 | merging one more upsert keeps every field the first filled one and the creation time the first known |
| MetaInbox.OpenEventsHaveAttempts | internal/metaleads/processor.go:54-104 | in every run an open event has fewer than ten attempts and a processed one has its lead |
| MetaInbox.ClosedEventsStay | internal/metaleads/processor.go:234-309 | processed, ignored and dead-letter events are never touched again |
| MetaInbox.RetriesSlowDown | internal/metaleads/processor.go:344-359 | the delay never shrinks from one attempt to the next and stays between fifteen seconds and six hours |
| MetaInbox.StaleCommitKeepsEvent | internal/metaleads/processor.go:234-249 | a worker whose lease was taken over still commits its upsert and leaves the event alone |
| MetaInbox.ReceiveWrites | internal/metaleads/integration.go:121-168 | a first webhook leaves the event to the worker when its page is configured, a repeat changes nothing |
| MetaInbox.ClaimWrites | internal/metaleads/processor.go:64-99 | which events may be claimed, in their fields and the numbers, and what the claim writes |
| MetaInbox.FailWrites | internal/metaleads/processor.go:281-299 | a failure counts one attempt, sets the wait of that attempt, and retries exactly when it may and fewer than ten failed |
| MetaInbox.FailedIsRetried | internal/metaleads/processor.go:281-359 | a failed event is taken up again exactly by a sweep with retries after fifteen seconds, one, five or fifteen minutes, an hour, then six hours |
| MetaInbox.IgnoreWrites | internal/metaleads/processor.go:139-147 | an event that is too old is ignored by its holder and nothing else changes |
| MetaInbox.CommitStoresLead | internal/metaleads/processor.go:167-216 | a commit adds the lead of a new id, or fills the gaps of the stored one, and leaves the others |
| MetaInbox.CommitClosesEvent | internal/metaleads/processor.go:234-241 | under its token the event becomes processed and points to that lead |
| MetaInbox.EventReclaimIff | internal/metaleads/processor.go:72-76 | over any run in which nothing settles a claimed event it can be claimed again exactly when the last claim is more than five minutes old |
| MetaWorker.CommitAlone | internal/metaleads/processor.go:160-249 | what upsert and commit do to leads, notifications and the event when nothing interferes |
| MetaWorker.AbortAlone | internal/metaleads/processor.go:160-164 | an upsert that is rolled back leaves no trace |
| MetaWorker.Worker.StoreWebhook | internal/metaleads/integration.go:121-168 | a batch is one receive per event; it counts the rows added and those of them left to the worker, and a repeat adds none |
| MetaWorker.Worker.ClaimNext | internal/metaleads/processor.go:54-104 | the event received first of those that may be claimed, taken as the protocol's claim |
| MetaWorker.Worker.UpsertLead | internal/metaleads/processor.go:167-216 | a new lead, or the stored one merged column by column |
| MetaWorker.Worker.FailEvent | internal/metaleads/processor.go:281-309 | a failure is the protocol's failure step |
| MetaWorker.Worker.StoreLead | internal/metaleads/processor.go:160-249 | lead, notifications and event in one transaction are the protocol's upsert and commit |
| MetaWorker.Worker.Process | internal/metaleads/processor.go:106-249 | every way processing can go is its sequence of protocol steps; a fetch that fails retries unless the error is one of the permanent ones or the tenth |
| Reconcile.Inbox.Insert | internal/metaleads/sync.go:255-271 | a row is added exactly when the lead has none, and ids stay unique |
| Reconcile.Inbox.Offer | internal/metaleads/sync.go:224-272 | one lead: too old, skipped, already there or added, and counted accordingly |
| Reconcile.Inbox.IngestPage | internal/metaleads/sync.go:223-272 | a page adds only due leads, counts exactly what it added and saw even when an insert fails, and otherwise offers all that are due |
| Reconcile.Inbox.ReconcileForm | internal/metaleads/sync.go:214-283 | it ends for any answers over finitely many cursors, adds nothing older than the cutoff, counts the added rows and the due ones it read exactly also on errors, and on success has offered and counted every due lead of a newest-first listing |
| Reconcile.Inbox.ReconcilePage | internal/metaleads/sync.go:141-212 | all forms from one cutoff, never before the lookback nor before ingestion began; on success the leads seen are the due ones of all forms |
| Reconcile.NothingAfter | internal/metaleads/sync.go:273-275 | after a page that is older nothing due is left to offer or to count |
| Reconcile.CutoffIs | internal/metaleads/sync.go:146-155 | the cutoff is the later of the lookback, or a week, and the start of ingestion |
| Idempotency.StepKeepsInv | internal/crmapi/workflow.go:188-217 | every step of every request keeps the invariant, and no committed key row ever changes |
| Idempotency.AtMostOneEffect | internal/crmapi/projects.go:594-633 | in every run a key has at most one committed effect and exactly as many first answers |
| Idempotency.AnswersAgree | internal/crmapi/workflow.go:188-217 | all successful answers of a key carry one response and came with one request hash |
| Idempotency.AnswersOnlyGrow | internal/crmapi/projects.go:624-633 | committed effects and answers are never taken back |
| Idempotency.SuccessIsForever | internal/crmapi/workflow.go:188-217 | after a success the same request is answered with that response and another with a conflict, forever |
| Idempotency.RollbackLeavesKeyReusable | internal/crmapi/projects.go:594-621 | a rolled-back request leaves the state as it found it |
| Idempotency.SecondRequestWaits | internal/crmapi/workflow.go:188-198 | while a request owns a key no other request of that key proceeds |
| Idempotency.RunIs | internal/crmapi/projects.go:594-633 | a run takes its steps one after the other |
| Idempotency.OwnerCommits | internal/crmapi/projects.go:594-633 | a request that owns its key and finishes has stored its effect, its hash and its answer |
| Idempotency.LaterIsReplayed | internal/crmapi/workflow.go:199-217 | a later request gets the stored answer exactly with the stored hash and a complete row |
| Idempotency.UnfinishedKeyIsSpent | internal/crmapi/lead_documents.go:297-307 | once a key is committed without a response, no later request of it is answered or has an effect |
| Idempotency.KeyTable.ClaimKey | internal/crmapi/workflow.go:188-217 | insert, or compare the hash and then the completeness of the row |
| Idempotency.KeyTable.Handle | internal/crmapi/projects.go:594-633 | a request runs exactly when it owns its key and succeeds, and is replayed afterwards |
| Ledger.MaxPaymentIsExact | internal/crmapi/projects_logic.go:598-607 | in a balance that is not overpaid a positive amount is within the limit exactly when recording it overpays nothing |
| LedgerBook.FineIff | internal/crmapi/projects_logic.go:736-760 | the check refuses exactly a contract paid above its total, alone or with the intro payments of its currency |
| LedgerBook.OverpaidNames | internal/crmapi/projects_logic.go:736-754 | the amount a refusal names is the sum of the intro contract, or all that counts for the main one |
| LedgerBook.AddContractIs | internal/crmapi/projects_mutations.go:268-352 | when a contract is accepted, and the row and the stage it leaves |
| LedgerBook.EditContractIs | internal/crmapi/projects_pipeline.go:429-520 | when a change is accepted, the currency only while nothing is paid, and the row it leaves |
| LedgerBook.DeleteContractIs | internal/crmapi/projects_pipeline.go:532-570 | a contract goes exactly when nothing is recorded on it |
| LedgerBook.UnknownIsRefused | internal/crmapi/projects_pipeline.go:429-570 | a contract of no known id is neither changed nor deleted |
| LedgerBook.AddPaymentIs | internal/crmapi/projects_mutations.go:354-435 | a payment is accepted exactly when the ledger with it is balanced; it adds one payment with a new id, on the given, else the main, else the intro contract |
| LedgerBook.AddPaymentAdds | internal/crmapi/projects_mutations.go:406-409 | that contract has exactly so much more, every other one what it had |
| LedgerBook.RefusalNamesLimit | internal/crmapi/projects_mutations.go:398-404 | the limit a refusal names admits exactly the amounts that leave a balance |
| LedgerBook.EditPaymentIs | internal/crmapi/projects_pipeline.go:611-695 | a change is accepted exactly when the ledger with it is balanced, and replaces that amount alone |
| LedgerBook.EditPaymentChanges | internal/crmapi/projects_pipeline.go:611-695 | the contract's sum changes by the difference, no other does |
| LedgerBook.DeletePaymentIs | internal/crmapi/projects_pipeline.go:697-729 | exactly that payment goes |
| LedgerBook.DeletePaymentTakes | internal/crmapi/projects_pipeline.go:697-729 | its amount leaves the contract's sum and no other |
| LedgerBook.SetEstimateIs | internal/crmapi/projects_pipeline.go:308-393 | when an estimate is accepted, and every line after it |
| LedgerBook.StageRequestsAre | internal/crmapi/projects_mutations.go:88-264 | which stages are picked by hand and with which date; cancelling and restoring field by field |
| LedgerBook.AddContractRefusals | internal/crmapi/projects_mutations.go:268-352 | which refusal answers a contract that is not accepted |
| LedgerBook.EditContractRefusals | internal/crmapi/projects_pipeline.go:429-520 | and a change of one |
| LedgerBook.AddPaymentRefusals | internal/crmapi/projects_mutations.go:354-404 | which refusal answers a payment that is not accepted |
| LedgerBook.EditPaymentRefusals | internal/crmapi/projects_pipeline.go:611-695 | and a change of one |
| LedgerBook.DeleteRefusals | internal/crmapi/projects_pipeline.go:532-729 | and the deletions |
| LedgerBook.OtherRefusals | internal/crmapi/projects_mutations.go:88-171 | which refusal answers an estimate or a stage |
| LedgerBook.MoneyIsBooked | internal/crmapi/projects_mutations.go:354-435 | in every run the money on a contract is the sum of the payments accepted for it, as changed, less those deleted |
| Ledger.LimitIsExactIff | internal/crmapi/projects_logic.go:598-607 | for a contract that exists the limit is exact for all positive amounts exactly when the balance is not overpaid or the limit is zero |
| Ledger.MaxPaymentNeedsBalance | internal/crmapi/projects_logic.go:598-607 | a balance, overpaid on the intro contract, whose main limit is not exact |
| Ledger.MoneyFromContracts | internal/crmapi/projects_logic.go:723-734 | the balance of the loaded rows |
| Ledger.MoneyReadsRow | internal/crmapi/projects_logic.go:723-734 | with one row per kind the balance holds each row's figures, in any order |
| Ledger.PickPaymentContract | internal/crmapi/projects_logic.go:757-780 | the given contract, else the main one, else the intro one |
| Ledger.PickIsARow | internal/crmapi/projects_logic.go:757-780 | what is picked is a row of the project; nothing is picked only for an unknown id or no contract |
| Ledger.PaidReplace | internal/crmapi/projects_pipeline.go:30-52 | a contract's paid sum after changing or deleting a payment is the sum that leaves it out, plus the new amount |
| Ledger.AddContractKeeps | internal/crmapi/projects_mutations.go:268-352 | adding a contract keeps the ledger balanced |
| Ledger.EditContractKeeps | internal/crmapi/projects_pipeline.go:429-520 | editing a contract keeps the ledger balanced |
| Ledger.DeleteContractKeeps | internal/crmapi/projects_pipeline.go:532-570 | deleting a contract without payments keeps the ledger balanced |
| Ledger.AddPaymentKeeps | internal/crmapi/projects_mutations.go:354-435 | recording a payment keeps the ledger balanced |
| Ledger.EditPaymentKeeps | internal/crmapi/projects_pipeline.go:611-695 | changing a payment keeps the ledger balanced |
| Ledger.DeletePaymentKeeps | internal/crmapi/projects_pipeline.go:697-729 | deleting a payment keeps the ledger balanced |
| Ledger.RunKeepsInv | internal/crmapi/projects_pipeline.go:429-729 | every run of requests keeps one contract per kind, payments on contracts of the project, and a balance that is not overpaid |
| Ledger.LedgerIsBalanced | internal/crmapi/projects_logic.go:736-753 | in every reachable project: at most one contract per kind, paid at most total on each, and main plus same-currency intro payments at most the main total |
| Ledger.PaymentAcceptedIff | internal/crmapi/projects_mutations.go:354-435 | a payment on a contract is accepted exactly when the ledger with it is balanced |
| Ledger.PaymentEditAcceptedIff | internal/crmapi/projects_pipeline.go:611-695 | a changed amount is accepted exactly when the ledger with it is balanced |
| Ledger.SumsFit | internal/crmapi/projects_logic.go:420-430 | every sum the money rules form stays inside 64 bits |
| Ledger.ContractMovesForward | internal/crmapi/projects_logic.go:79-85 | adding a contract moves the stage to the later of the current one and the contract's |
| Ledger.ContractStageNeedsContract | internal/crmapi/projects_logic.go:50-57 | in every run a contract stage is reached only by an accepted addition of that contract, through any cancels and restores |
| Ledger.CancelThenRestore | internal/crmapi/projects_mutations.go:175-264 | whatever is asked of a cancelled project, restoring gives the project back except for the planned date |
| Ledger.FrozenWhileCancelled | internal/crmapi/projects_mutations.go:37-66 | a cancelled project changes only by being restored |
| Ledger.EstimateIsFrozen | internal/crmapi/projects_pipeline.go:308-393 | once the main contract exists the estimate stays until a contract is deleted |
| ProjectCard.Card.LoadContracts | internal/crmapi/projects_pipeline.go:30-52 | every contract with its payments summed, without the excluded one |
| ProjectCard.KindTaken | internal/crmapi/projects_mutations.go:296-301 | whether a contract of the kind is among the rows |
| ProjectCard.Card.AddContract | internal/crmapi/projects_mutations.go:268-352 | the handler answers and leaves the project as the ledger's step, which keeps it balanced |
| ProjectCard.Card.EditContract | internal/crmapi/projects_pipeline.go:429-520 | the handler, editing the loaded rows in place, answers and leaves the project as the ledger's step, which keeps it balanced |
| ProjectCard.Card.DeleteContract | internal/crmapi/projects_pipeline.go:532-570 | the handler answers and leaves the project as the ledger's step, which keeps it balanced |
| ProjectCard.Card.AddPayment | internal/crmapi/projects_mutations.go:354-435 | the handler answers and leaves the project as the ledger's step, which keeps it balanced |
| ProjectCard.Card.EditPayment | internal/crmapi/projects_pipeline.go:611-695 | the handler answers and leaves the project as the ledger's step, which keeps it balanced |
| ProjectCard.Card.DeletePayment | internal/crmapi/projects_pipeline.go:697-729 | the handler answers and leaves the project as the ledger's step, which keeps it balanced |
| ProjectCard.Card.SetEstimate | internal/crmapi/projects_pipeline.go:308-393 | given lines are replaced or removed and the others stay |
| ProjectCard.Card.ChangeStage | internal/crmapi/projects_mutations.go:88-171 | only hand-picked stages, with a date where the stage asks for one |
| ProjectCard.Card.Cancel | internal/crmapi/projects_mutations.go:175-225 | the stage is remembered and the planned date cleared |
| ProjectCard.Card.Restore | internal/crmapi/projects_mutations.go:227-264 | only a cancelled project, back to the remembered stage |
| ProjectCard.HandledKeepsInv | internal/crmapi/projects_mutations.go:88-435 | every handler keeps the ledger's invariant |
| Money.FormatMoneyCents | internal/crmapi/projects_logic.go:436-451 | the loop writes the digits in groups of three counted from the right, then the cents when there are any |
| Money.FormIs | internal/crmapi/projects_logic.go:436-451 | two decimals after a point when there are cents, and none otherwise |
| Money.SpacedIsGrouped | internal/crmapi/projects_logic.go:440-446 | spacing from the left is grouping from the right |
| Money.GroupLengths | internal/crmapi/projects_logic.go:440-446 | spaces stand exactly before every third digit from the end |
| Money.ParseUndoesFormat | internal/crmapi/projects_logic.go:436-451 | dropping the spaces and reading the decimals gives the amount back |
| Money.FormatIsInjective | internal/crmapi/projects_logic.go:436-451 | distinct amounts never print alike |
| LeadModel.LatestStatus | internal/crmapi/event_correction.go:193-203 | a status entry no other status entry comes after, or none when there is none |
| LeadModel.CancelVisits | internal/crmapi/appointments.go:36-47 | exactly the scheduled visits of the kind become cancelled |
| LeadModel.DeriveIsTheMirror | internal/crmapi/v2_status.go:35-97 | deriving gives a v2 status exactly when the v1 fields are what that v2 status writes |
| EventCorrection.KindIsReadBack | internal/crmapi/event_correction.go:30-64 | the stored form of each kind reads back as that kind |
| EventCorrection.FollowingKeepsInv | internal/crmapi/event_correction.go:268-314 | a lead that follows a correction keeps the status invariants |
| EventCorrection.CorrectKeeps | internal/crmapi/event_correction.go:128-351 | any accepted correction keeps the lead's and its entries' invariants |
| EventCorrection.CorrectionsOnlyAppend | internal/crmapi/event_correction.go:223-264 | a correction adds one record to its own entry, whose last type is what the entry now reads as, and touches no other entry |
| EventCorrection.RetypeAcceptedIff | internal/crmapi/event_correction.go:79-117 | a change of type is accepted exactly when it is a change, dated when a date is needed and not otherwise, and a comment has a text |
| EventCorrection.RetypeLatest | internal/crmapi/event_correction.go:268-314 | retyping the latest status entry is accepted, keeps it the latest, and changes the lead as undo and redo |
| EventCorrection.CallThereAndBack | internal/crmapi/event_correction.go:268-314 | call kind to call kind and back restores call and client status; the counter and the v2 status under exact conditions |
| EventCorrection.ThinkingThereAndBack | internal/crmapi/event_correction.go:273-281 | through thinking and back the call status returns, the client status exactly when the entry remembers it or it was new |
| LeadState.ActivityKeepsInv | internal/crmapi/activities.go:626-963 | every accepted activity keeps closed leads quiet and the v2 mirror |
| LeadEffects.ActivityAcceptedIff | internal/crmapi/activities.go:194-366 | exactly which activities are accepted |
| LeadEffects.RefusalIs | internal/crmapi/activities.go:194-366 | and which refusal answers the others |
| LeadEffects.CallResultIs | internal/crmapi/activities.go:651-664 | a call result is the call status, with its date, its v2 status and its entry |
| LeadEffects.ClientChangeIs | internal/crmapi/activities.go:717-784 | a client change is the client status, with its reminder, its visits, its v2 status and its entry |
| LeadEffects.V2CallIs | internal/crmapi/activities.go:814-842 | a v2 call result is that call status and raises or zeroes the counter |
| LeadEffects.V2ClientIs | internal/crmapi/activities.go:843-898 | a v2 lead status is that client status |
| LeadEffects.ReopenIs | internal/crmapi/activities.go:785-798 | reopening leaves a new lead without call or reminder |
| LeadEffects.NotesAre | internal/crmapi/activities.go:665-671 | comments, questions and ratings leave every status alone |
| LeadEffects.ClearReminderIs | internal/crmapi/activities.go:672-716 | which date or which visits clearing a reminder drops |
| LeadEffects.CreateVisitIs | internal/crmapi/appointments.go:496-637 | when a visit is booked and the client status it leaves |
| LeadEffects.UpdateVisitIs | internal/crmapi/appointments.go:639-793 | when a visit changes its status |
| LeadEffects.DuplicateIs | internal/crmapi/duplicates.go:31-161 | when a duplicate is marked and how it is closed |
| LeadEffects.CreateProjectIs | internal/crmapi/projects.go:646-801 | when a project is created |
| LeadEffects.ArchiveIs | internal/crmapi/leads.go:1295-1336 | what archiving, its undoing and cancelling future visits change |
| LeadEffects.CorrectionAcceptedIff | internal/crmapi/event_correction.go:128-190 | exactly which corrections are accepted |
| LeadEffects.OthersAreNotCorrected | internal/crmapi/event_correction.go:183-187 | an entry of any other kind cannot be corrected |
| LeadEffects.FollowsIff | internal/crmapi/event_correction.go:192-216 | the lead follows a change of kind of its latest status entry, or of a comment later than all of them |
| LeadEffects.CorrectedEntryIs | internal/crmapi/event_correction.go:217-266 | kind, text, date and history of the corrected entry |
| LeadEffects.CorrectedLeadIs | internal/crmapi/event_correction.go:268-320 | the lead after a correction: call, client, reminder and counter |
| LeadEffects.DerivedIs | internal/crmapi/v2_status.go:35-97 | the v2 status of every client and call status |
| LeadState.EntryIsOk | internal/crmapi/activities.go:650-942 | no correctable entry is written with a closed old client status |
| LeadState.DuplicateKeeps | internal/crmapi/duplicates.go:81-125 | marking a duplicate keeps the invariants |
| LeadState.VisitStepsKeep | internal/crmapi/appointments.go:496-793 | booking and updating visits keeps the invariants |
| LeadState.StepKeeps | internal/crmapi/activities.go:194-366 | every request of every kind keeps the invariants |
| LeadState.RunKeeps | internal/crmapi/activities.go:194-366 | so does every run, from any lead that has them |
| LeadState.ClosedLeadsAreQuiet | internal/crmapi/activities.go:1035-1057 | in every reachable state a closed or signed lead has no reminder and no scheduled visit |
| LeadState.V2MirrorsV1 | internal/crmapi/v2_status.go:35-97 | in every reachable state closed_lost is lost, a v2 call result is the call status, new means no call, and a duplicate is closed |
| LeadState.HistoriesOnlyGrow | internal/crmapi/event_correction.go:223-232 | over any run an entry keeps its time and id, its corrections are a prefix of those after, and without a new one it is unchanged |
| LeadState.CorrectionChains | internal/crmapi/event_correction.go:223-232 | in every reachable state each entry's corrections form a chain that ends with the type it reads as |
| LeadState.DatesAreKept | internal/crmapi/activities.go:650-913 | an accepted activity keeps the date it was given, as the reminder or as a showroom visit |
| LeadState.ClosedUntilReopened | internal/crmapi/activities.go:312-321 | in every run without a reopening a closed or signed lead keeps its client status |
| LeadState.StepFreshIff | internal/crmapi/activities.go:907-914 | for every lead and request: after it the v2 status is the derived one exactly when the request restores it, or it was and the request does not break it |
| LeadState.VisitKeepsFreshIff | internal/crmapi/appointments.go:605-618 | a booking keeps the v2 status in step exactly when it is office work, a showroom visit of an invited lead, or a measurement of a lead without a v2 status |
| LeadState.RunFreshIff | internal/crmapi/v2_status.go:35-97 | after any run the v2 status is in step exactly when the last request that decides it restored it, or none broke it and it was |
| LeadState.V2ThinkingDoesNotPin | internal/crmapi/appointments.go:605-618 | a reachable lead is thinking in v2 and measurement_scheduled in v1 |
| LeadState.V2CallDoesNotPin | internal/crmapi/activities.go:820-840 | a reachable lead is later in v2 and thinking in v1 |
| LeadState.ProjectStaysIff | internal/crmapi/event_correction.go:217-312 | a request takes the v2 status project away exactly when it is an accepted correction that the lead follows |
| LeadState.ProjectIsNotRegained | internal/crmapi/projects.go:695-764 | once a lead with a project has lost the status, no run brings it back |
| LeadState.RunKeepsProjectIff | internal/crmapi/event_correction.go:217-312 | over any run the status stays exactly when the lead follows no correction |
| LeadState.ProjectStatusCanBeLost | internal/crmapi/event_correction.go:306-312 | a reachable lead with a project loses the v2 status project to a correction |
| LeadImport.AllKeepSteady | internal/biuroimport/importer.go:357-490 | with imports at any point closed leads stay quiet, lost stays closed_lost, a duplicate closed, and entries keep their chains |
| LeadImport.RunMirrorIff | internal/biuroimport/importer.go:443-449 | from any lead, after any run of requests and imports the call mirror holds exactly when no import broke it since it held or was restored |
| LeadImport.ImportWrites | internal/biuroimport/importer.go:409-480 | an import sets the call status and adds the lines that are missing, and nothing else |
| LeadImport.InvAfterImportsIff | internal/biuroimport/importer.go:443-449 | so do all invariants for a new lead |
| LeadImport.ImportKeepsMirrorIff | internal/biuroimport/importer.go:443-449 | an import with a conversation keeps the mirror exactly when the v2 status is none of new, later and noanswer |
| LeadImport.ImportKeepsFreshIff | internal/biuroimport/importer.go:443-449 | it keeps the v2 status in step exactly when the client is not new or was already reached |
| LeadImport.ImportCanBreakMirror | internal/biuroimport/importer.go:443-449 | a reachable lead whose mirror the import breaks |
| LeadDesk.Row.CancelScheduled | internal/crmapi/appointments.go:1022-1070 | the loop cancels exactly the scheduled visits of the kind |
| LeadDesk.Row.Change | internal/crmapi/activities.go:639-914 | the switch computes the next call, client, reminder, v2 status and counter of every activity |
| LeadDesk.Row.Visits | internal/crmapi/activities.go:953-962 | the visits an activity books or cancels |
| LeadDesk.Row.Apply | internal/crmapi/activities.go:626-963 | an activity changes the row as its step, or nothing when a lookup fails |
| LeadDesk.Row.Activity | internal/crmapi/activities.go:194-366 | the guards in their order and the answer |
| LeadDesk.Row.Rewrite | internal/crmapi/event_correction.go:193-266 | the corrected entry and whether the lead follows it |
| LeadDesk.Row.Follow | internal/crmapi/event_correction.go:268-306 | the fields of a lead that follows a correction |
| LeadDesk.Row.CorrectEvent | internal/crmapi/event_correction.go:128-351 | the handler answers and leaves the lead as the correction step |
| LeadDesk.Row.CreateAppointment | internal/crmapi/appointments.go:496-637 | the handler's effect on the lead, by kind of visit |
| LeadDesk.Row.UpdateAppointment | internal/crmapi/appointments.go:639-793 | the handler's effect on the lead: a visit only leaves `scheduled` |
| LeadDesk.Row.Duplicate | internal/crmapi/duplicates.go:31-161 | the handler answers and leaves the lead as its step |
| LeadDesk.Row.MakeProject | internal/crmapi/projects.go:646-801 | the handler answers and leaves the lead as its step |
| LeadDesk.Row.ArchiveLead | internal/crmapi/leads.go:1295-1336 | the lead is archived and its scheduled visits are cancelled |
| LeadDesk.HandledKeepsGood | internal/crmapi/activities.go:194-366 | every handler keeps the lead invariants |
| ClientMerge.Resolve | internal/crmapi/clients.go:185-219 | following the pointers ends at a live client of the same office, the same one or an older |
| ClientMerge.Store.Load | internal/crmapi/clients.go:185-219 | a code is found exactly when its chain has at most ten redirects, with the client it resolves to and whether it was redirected |
| ClientMerge.Store.MergeClients | internal/crmapi/clients.go:617-768 | the handler answers and leaves the registry as the merge step, the newer client into the older |
| ClientMerge.MergeResolves | internal/crmapi/clients.go:703-726 | one merge changes resolution exactly by sending the newer client's class to the older |
| ClientMerge.MergeWrites | internal/crmapi/clients.go:646-734 | which merges are accepted, which client survives, and every row afterwards |
| ClientMerge.AddingWrites | supabase/migrations/20261023120000_clients.sql:113-210 | what a match, a new client and a project store |
| ClientMerge.TotalsAreConserved | internal/crmapi/clients.go:709-722 | the survivor ends with what both had, the tombstone with nothing, everyone else as before |
| ClientMerge.MovedIsResolved | internal/crmapi/clients.go:709-722 | moving links changes where none of them leads, and a live one then points there at once |
| ClientMerge.RunKeepsInv | internal/crmapi/clients.go:646-734 | in every run tombstones point to strictly older clients of their office, and every lead, project, task and pending insert names a client of its own office |
| ClientMerge.LinksResolve | internal/crmapi/clients.go:185-219 | in every run each link of a lead, project or task leads to a live client of its office |
| ClientMerge.LiveUntilBuried | internal/crmapi/clients.go:646-734 | a client is live after a run exactly when no accepted merge of the run was of it into another |
| ClientMerge.StoredLinkIsLiveIff | supabase/migrations/20261023120000_clients.sql:113-196 | a lead is stored with the client it was matched to, live exactly when no merge between match and insert buried it |
| ClientMerge.AllLiveIff | internal/crmapi/clients.go:709-722 | no lead, project or task points to a tombstone after a run exactly when no lead was inserted with a match that a merge had buried |
| ClientMerge.DeadLinkStays | internal/crmapi/clients.go:709-722 | a lead that points to a tombstone does so in every later state |
| ClientMerge.MergeBetweenMatchAndInsert | supabase/migrations/20261023120000_clients.sql:174-196 | from the empty registry: match, merge, insert, and the lead is on the tombstone |
| ClientMerge.TombstonesStay | internal/crmapi/clients.go:612-616 | a tombstone keeps its pointer in every run |
| ClientMerge.MergedStayMerged | internal/crmapi/clients.go:612-616 | two codes that lead to one client do so forever |
| ClientMerge.AnyDepthIsReachable | internal/crmapi/clients.go:206-213 | from the empty registry leads and merges make a chain of any depth |
| SheetImport.StoredPhoneIsStable | internal/biuroimport/model.go:375-394 | a stored number reads back as itself |
| SheetImport.SameNumber | internal/biuroimport/model.go:375-394 | two normalized numbers are equal exactly when their last nine digits are |
| SheetImport.ParsePhoneIs | internal/biuroimport/model.go:375-394 | exactly which texts are numbers |
| SheetImport.FoldGroup | internal/biuroimport/model.go:449-489 | the fields of a lead folded from its rows in order |
| SheetImport.MergeRows | internal/biuroimport/model.go:422-493 | one lead per key in order of first appearance, and how many keys gather several rows |
| SheetImport.EveryRowInOneLead | internal/biuroimport/model.go:422-434 | a row is in the lead of its key, as often as it occurs, and in no other |
| SheetImport.SameLeadIff | internal/biuroimport/model.go:422-434 | rows are of one lead exactly when they have one number, or neither has one and they are one row of the source |
| SheetImport.TextsOfALead | internal/biuroimport/model.go:454-472 | name, phone, e-mail, city and manager are the last ones filled in, by date |
| SheetImport.CommentsAre | internal/biuroimport/model.go:504-532 | the comments a row makes, each at its time |
| SheetImport.SamePhoneSameLead | internal/biuroimport/model.go:425-433 | one normalized phone, one lead; the rows of a lead share their key |
| SheetImport.DatesOfALead | internal/biuroimport/model.go:439-489 | created on the earliest date of its rows, with their earliest conversation and the latest comment any of them makes |
| SheetImport.EarliestIs | internal/biuroimport/model.go:473-481 | the first conversation is the earliest, and the first of those equally early |
| SheetImport.LastCommentIs | internal/biuroimport/model.go:482-488 | the last comment is one of the listed comments and none is later |
| SheetImport.StatusComesLastIff | internal/biuroimport/model.go:504-532 | the status comment is a row's last exactly when there is no measurement or it lies early enough |
| SheetImport.IdsDistinctIff | internal/biuroimport/model.go:449-453 | every lead has an external id of its own exactly when no two first rows of different groups carry the same source key |
| SheetImport.IdsCanCollide | internal/biuroimport/model.go:449-453 | two rows with one LP and different phones give two leads with one external id |
| SheetImport.OrderDoesNotMatter | internal/biuroimport/model.go:436-446 | with distinct sheet rows the set of leads does not depend on the order of the input |
| RateLimiter.FilterInPlace | internal/httpapi/server.go:355-361 | the filter, over its own backing array, keeps exactly the times after the cutoff in their order |
| RateLimiter.Append | internal/httpapi/server.go:366-366 | the slice grows by the new time, in place or in a new array |
| RateLimiter.Decide | internal/httpapi/server.go:350-368 | one call on a key's slice: admitted exactly when fewer than the limit are kept, and what the slice holds afterwards |
| RateLimiter.DecisionIsExact | internal/httpapi/server.go:350-368 | a call that was not overtaken is admitted exactly when the accepted requests of its window are fewer than the limit |
| RateLimiter.AnyWindowHoldsAtMostLimit | internal/httpapi/server.go:332-368 | for calls that lag at most `lag` behind, no stretch of a minute less the lag, wherever it ends, holds more accepted requests than the limit; for calls in clock order that is every minute |
| RateLimiter.FullWindowsHoldIff | internal/httpapi/server.go:350-368 | full windows hold at most the limit for all calls that lag at most `lag` exactly when the lag is zero or the limit is one |
| RateLimiter.OvertakenCallsBreakWindow | internal/httpapi/server.go:350-353 | for every limit and any positive lag there are calls within it that put twice the limit less one in a full window |
| RateLimiter.OnePerWindow | internal/httpapi/server.go:355-366 | with a limit of one no calls, however late, put two accepted requests in a window |
| RateLimiter.Limiter.constructor | internal/httpapi/server.go:339-348 | a limit that is not positive becomes thirty |
| RateLimiter.Limiter.Allow | internal/httpapi/server.go:350-368 | any call of any key: it counts as accepted exactly when let through, and unless overtaken it is refused exactly when the key's last minute holds the limit; other keys are untouched |
| Cursor.DecodeUndoesEncode | internal/crmapi/leads.go:201-209 | the base64 form of any bytes decodes to them |
| Cursor.AlphabetIs | internal/crmapi/leads.go:201-209 | the characters are those of the URL alphabet of RFC 4648 |
| Cursor.BitsAreInOrder | internal/crmapi/leads.go:201-209 | the bits are taken in order, six to a character |
| Cursor.CursorReadsBack | internal/crmapi/leads.go:201-223 | a cursor that was handed out reads back as its row's time and id |
| Cursor.CursorIs | internal/crmapi/leads.go:201-209 | a cursor holds the time, a bar and the id |
| Paging.Limit | internal/crmapi/leads.go:510-518 | a page size is positive and at most the maximum, whatever was asked |
| Paging.LimitIs | internal/crmapi/leads.go:510-518 | a size within the bounds is the size used |
| Paging.ReadingOn | internal/crmapi/leads.go:530-547 | the rows below a row of the listing are the rows after it |
| Paging.List | internal/crmapi/leads.go:508-572 | a page is the first rows below the cursor, with a next cursor exactly when there are more |
| Paging.NextPage | internal/crmapi/projects.go:370-432 | a page read from a handed-out cursor holds the next rows, and its cursor stands after them |
| Paging.ListAll | internal/crmapi/leads.go:508-572 | following the next cursor ends and visits the whole listing |
| Paging.Follow | internal/crmapi/leads.go:508-572 | reading on from any handed-out cursor visits exactly the rest |
| Paging.ListingVisitsOnce | internal/crmapi/leads.go:536-547 | the listing holds every row once, strictly newest first |
| Paging.Column | internal/crmapi/projects.go:526-571 | a board column: its count, its first cards, and a cursor when there are more |
| Paging.ColumnThenList | internal/crmapi/projects.go:480-576 | a column continued through the list visits its rows exactly once |
| Funnel.AddLead | internal/crmapi/sales_funnel_report.go:107-137 | the counters of one more lead's evidence |
| Funnel.AddContract | internal/crmapi/sales_funnel_report.go:195-210 | the totals stay one per currency with its exact sum |
| Funnel.Aggregate | internal/crmapi/sales_funnel_report.go:78-166 | counts, percents against their bases, and contract totals of any list |
| Funnel.FunnelNarrows | internal/crmapi/sales_funnel_report.go:107-137 | reached and not reached make up the calls, and every later stage is at most the one before |
| Funnel.EvidenceIs | internal/crmapi/sales_funnel_report.go:107-112 | which evidence counts in which stage |
| Funnel.BasesAre | internal/crmapi/sales_funnel_report.go:147-155 | which stage each percent is of |
| Funnel.SumIs | internal/crmapi/sales_funnel_report.go:195-210 | which amounts count for a currency |
| Funnel.PercentIs | internal/crmapi/sales_funnel_report.go:71-76 | the percent is the whole part, one more from a half on |
| Funnel.PercentsAddUp | internal/crmapi/sales_funnel_report.go:71-76 | two parts of a whole give 100, or 101 exactly at a tie |
| Funnel.ReportPercents | internal/crmapi/sales_funnel_report.go:147-155 | every percent of the report is at most 100, and reached and not reached give 100 or 101 |

## Left out

- Transactions: `Booking`, `Delivery`, `MetaInbox` and `Idempotency` model rows, locks and in-flight transactions as
  values, because several actors change them; the classes beside them are one undisturbed actor.
- Booking.ConflictsOnlyDisappear: overlaps are excluded only for runs without a harmful legacy commit, since the code
  allows such commits; `Booking.RunStaysDisjointIff` says exactly which they are.
- BookingDesk.Calendar.Create: does not check office access, office hours, time zones or that the manager is active,
  which need other tables; the lead's status is checked in `LeadDesk.Row.CreateAppointment`.
- Delivery.Dispatcher.Sweep: assumes that database calls succeed and that nothing is added meanwhile; failing calls and
  other workers are in the protocol above it.
- MetaWorker.Worker.Process: does not map Graph payloads to columns and does not raise the alerts; a payload is an
  opaque set of fifteen fields.
- Reconcile.Inbox.ReconcileForm: does not model the JSON of a stored payload, whose encoding is taken to succeed; the
  form list of `syncForms` has the same cursor loop and is not repeated.
- Idempotency.UnfinishedKeyIsSpent: the branch that spends the key also marks its attachment as blocked; that write is not
  one of the effects that are counted.
- Idempotency.AtMostOneEffect: covers requests that begin and finish as the shared helpers do; the document upload's
  other branches are thin.
- ProjectCard.Card.AddContract: does not store contract numbers, dates and files, nor write the project timeline; amounts
  are cents from the start, so the float conversion is not modelled.
- ProjectCard.Card.LoadContracts: rows come in the order they were added, not by kind; `Ledger.MoneyReadsRow` shows that
  the order does not matter.
- Money.FormatMoneyCents: amounts are not negative, as every caller's are.
- LeadState.V2MirrorsV1: speaks of runs of requests; with sheet imports it holds as `LeadImport.InvAfterImportsIff` says.
  The deletion of history events, which removes the evidence corrections rest on, is not modelled.
- LeadDesk.Row.Activity: does not model assignees, ratings, questions, loss reasons and the lengths of texts; a lookup
  that may fail is a flag of the request.
- LeadDesk.Row.UpdateAppointment: does not repeat the version check and the availability check of `Booking.PlanUpdate`.
- LeadDesk.Row.Duplicate: does not store which lead is the original, only that there is one.
- ClientMerge.RunKeepsInv: does not include the deletion of leads and projects, which only takes links away; links of
  tasks to clients are there from the start, since the API stores only links of tasks to leads.
- ClientMerge.Store.MergeClients: does not merge the contact fields.
- SheetImport.MergeRows: the spreadsheet id in front of every key is left out, since one sheet is imported; a
  measurement's comment text is kept as its date; reading cells and dates is not modelled.
- Cursor.CursorReadsBack: the text forms of times and ids belong to the standard library and are parameters that must
  read back and hold no bar.
- Paging.List: the filters are a fixed set of rows; rows that are added while someone pages are not modelled.
- Paging.Column: one column of the board; the grouping of all columns is query text.
- Funnel.Aggregate: percents and sums are exact, where the original rounds binary floating point, so a share that lies
  on a half may print one lower there; the potential, the comparison per office and the order of the totals are left out.
- HTTP routing, decoding, permissions, JWT, translations, reports' query text, tasks and settings: single checks or query
  text.

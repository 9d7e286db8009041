# Glasspot money core: a Dafny model

A group-payments backend: contributors fund a pot through provider virtual accounts, and the pot pays out or
refunds through provider transfers. This project models how its money moves and proves what the backend's
design promises about it. Amounts are unbounded integers of kobo, like the backend's bigints.

| file | what it models |
|---|---|
| `Ledger`, `LedgerFacts` | the double-entry ledger as a class over its tables, and what every run of it keeps |
| `Fees`, `Movements`, `Identity`, `Flows` | the fee schedule, the postings the backend makes, reversals, the accounting identity, every balance in closed form |
| `LockOrder` | the row locks of concurrent postings |
| `RefundSplit`, `ContributorsRefund`, `RefundLegs` | the pro-rata split over leg objects, how a refund builds its legs, and what each contributor is due |
| `Protocol`, `StepLaws`, `Solvency`, `Schedules`, `PotRules` | the disbursement protocol of one pot as a transition system |
| `Desk`, `FanOut`, `PayoutScheduler`, `RefundDispatch`, `Expiry` | the services that carry it out step by step over the ledger |
| `Funding` | how a contribution is funded, overpaid and reversed |
| `Idempotency`, `Webhooks` | two guards, one database statement at a time |
| `Throttle`, `Reconciliation`, `Money` | the transfer throttle, nightly reconciliation, naira strings |

`dafny verify dfyconfig.toml` checks all of it.

## How the pieces fit

Code that changes rows is a class whose methods are proved against functions on the state; the properties are
then proved of those functions, over all runs. `Ledger.LedgerService` is specified by `Post` and `Reverse`;
`Desk.Disbursements` keeps a pot's row, queue and ledger in step with the state `Protocol.Next` acts on, so
each of its methods is one step (or a loop of steps) of the protocol, and the invariants of
`Protocol`, `Solvency`, `Schedules` and `PotRules` hold of it. `Desk.OthersLeaveThePotAlone` is what lets one pot be
studied alone on a ledger all pots share.

Step granularity: a balance check and the lock claim are one step, as are a worker's attempt up to the
provider's answer, a webhook's resolution, one `confirmFunding` and one `reverseFunding`. A claim carries the
status and the balance its caller read, and a closing those it read, so that a reading gone stale is part of the model;
the update itself tests only the lock, and a reversal of a funding, which carries its reading of the lock, not even that.
Fan-outs that come to run side by side, which takes a lock freed too early,
take turns. The provider's answer is a free choice of succeeded, unsettled or rejected; an unknown outcome behaves
as unsettled. Each statement that records an outcome may throw. In `Idempotency`,
`Webhooks` and `LockOrder` every database statement or lock is its own step.

## What turned out not to hold

- A claim on a stale reading can queue a job the pot no longer covers (`Solvency.StaleClaimReachesTheWorkerCheck`), and
  so can a reversal that read the lock before it was taken (`Solvency.LateReversalLeavesAJobShort`) or after it was freed
  too early (`Schedules.EarlyReleasePaysTwice`). Solvency holds exactly when each
  step is covered (`Solvency.RunSolventIff`), and the worker's own check catches the rest.
- A failed account lookup (`worker.ts:141` lies outside the try block), a refund loop's failed enqueue, or an error once
  a pending transfer's transaction is settled (`pots.service.ts:694-711`) strands lock units for good; the lock can be
  freed if and only if none is stranded (`Protocol.ReleasableIff`).
- A scheduled leg can be transferred twice: by a sweep whose reading of it is stale (`Schedules.StaleSweepPaysTwice`), by
  the next sweep when recording its success threw (`Schedules.ErrorPaysTheLegAgain`), or when a lock freed too early lets
  it be claimed while it is in flight (`Schedules.EarlyReleasePaysTwice`). That can happen after a run exactly when the
  transfers made and in flight are two or more (`Schedules.TransferredTwiceIff`), and never along a run exactly when every
  claim finds the leg neither transferred nor in flight (`Schedules.NeverTwiceIff`).
- A claim does not look at the pot's status, so one made on an old reading locks a closed pot
  (`PotRules.LateClaimLocksAClosedPot`); a closed pot stays free exactly when every claim was made while it was open
  (`PotRules.ClosedForGood`).
- Closing goes by a balance read before (`PotRules.FundingOvertakesClosing`, `PotRules.ClosesEmptyIff`), and a closed pot
  can be credited (`PotRules.ClosedPotCanBeFunded`); what it holds, and when that is nothing, is `PotRules.ClosedPotHolds`.
- Any error thrown after a successful transfer is taken for a rejection: the transfer is reversed on the ledger
  although the money is out (`Protocol.ErrorAfterSuccessLooksRejected`), and if the lock had been given back already it is
  given back twice. That, for one of several legs, is exactly what breaks the lock's count (`Protocol.LockAccounting`,
  `Protocol.ReleasedTwice`).
- A job for an expiry refund completed or reversed already is transferred a second time
  (`Expiry.ExpiryRefunds.ProcessContributionRefund`); the books survive exactly when the answers agree
  (`Expiry.ResettledValidIff`).
- An overpayment's excess is not in the float, so its refund can be rejected for want of float after the
  contribution is already funded, and nothing tries again (`Funding.RefundPostedIff`, `Funding.LaterDeliveriesChangeNothing`).
- Those refunds are drawn on a float the excess was never added to, so they can leave it too short for a payout
  its pot covers (`Identity.SuspenseCanBlockAPayout`); with nothing in suspense it never is
  (`Identity.FloatCoversWithoutSuspense`).
- `fn` can run a second time under one idempotency key when saving its result fails (`Idempotency.SecondRunIff`), and
  if the save went through unacknowledged, two callers can be given different results
  (`Idempotency.LostAnswerGivesTwoResults`); when exactly is `Idempotency.ContradictedIff`.
- Narrowing a refund can pay nobody although some leg alone could pay its fee
  (`RefundSplit.BothHalvesDropThoughEachCouldPay`), contrary to the comment at `pots.service.ts:853-854`, which is
  right exactly under `RefundSplit.CommentHoldsIff`.
- A dated target's pot stays open when the webhook path completes its payout (`PotRules.TargetClosesIff`),
  contrary to the comment at `apply-on-success.ts:17-19`.
- The browser's parser loses the sign of negative kobo (`Money.WebRoundTripIff`).

Where documents and code disagree the model follows the code: the inbound fee is a clamped one percent plus
ten naira, not the flat fee of the repository's README, and the "4-leg" builders of `fees.ts` list five legs.

## Model

| member | source | states |
|---|---|---|
| `Ledger.LedgerService.ApplyEntryToBalance` | apps/backend/src/modules/ledger/ledger.service.ts:64-99 | one balance row moves by the entry signed against the account's normal balance, and an entry that would take it below zero changes nothing |
| `Ledger.LedgerService.PostTransaction` | apps/backend/src/modules/ledger/ledger.service.ts:110-193 | posting all-or-nothing on the tables: validation errors, a known reference answered with the existing row, missing accounts, a rejected entry leaving everything as it was, otherwise every entry applied in account order and logged |
| `Ledger.LedgerService.PostSorted` | apps/backend/src/modules/ledger/ledger.service.ts:161-180 | the row-by-row loop, with its rollback, does what applying the whole list at once does |
| `Ledger.LedgerService.ReverseTransaction` | apps/backend/src/modules/ledger/ledger.service.ts:202-243 | the reversing posting and the original's status change happen together or not at all |
| `Ledger.LedgerService.MarkCompleted` | apps/backend/src/modules/ledger/ledger.service.ts:246-259 | only the status of the named transaction changes; an unknown one is an error |
| `Ledger.AssertBalanced` | apps/backend/src/modules/ledger/ledger.service.ts:40-59 | the error for an empty, non-positive or unbalanced list of entries, in that order of precedence |
| `LedgerFacts.AcceptedIff` | apps/backend/src/modules/ledger/ledger.service.ts:75-86 | a list of entries is accepted exactly when no prefix of it takes any account below zero |
| `LedgerFacts.DistinctAcceptedIff` | apps/backend/src/modules/ledger/ledger.service.ts:75-86 | when each account appears once, acceptance is each entry's own cover, whatever the order |
| `LedgerFacts.RefusalNamesFirstShort` | apps/backend/src/modules/ledger/ledger.service.ts:64-99 | a refusal for want of funds names the account of the first entry, in the order applied, that takes it below zero, and there is none exactly when no entry does |
| `LedgerFacts.PostAnswers` | apps/backend/src/modules/ledger/ledger.service.ts:110-193 | which answer every posting gets: a malformed one is refused before its reference is looked at, a repeated one is answered with the transaction on record, an unknown account comes before any balance, funds come last, each exactly when it applies, and nothing refused changes anything |
| `LedgerFacts.SortSorts` | apps/backend/src/modules/ledger/ledger.service.ts:161-164 | the order in which rows are locked is ascending by account id |
| `LedgerFacts.PostKeeps` | apps/backend/src/modules/ledger/ledger.service.ts:110-193 | a posting of anything at all keeps cache and log consistent; a rejected one changes nothing, a known reference is answered with the row on file, and posting twice is posting once |
| `LedgerFacts.ReverseKeeps` | apps/backend/src/modules/ledger/ledger.service.ts:202-243 | a reversal of anything at all keeps cache and log consistent |
| `LedgerFacts.CacheAgreesWithLog` | apps/backend/src/modules/ledger/ledger.service.ts:75-98 | over every run of postings and reversals each balance is the signed fold of its log entries, each balanceAfter the fold of the prefix ending there, no prefix is negative, and every transaction's entries balance |
| `LedgerFacts.TrialBalance` | apps/backend/src/modules/ledger/accounts.service.ts:6-14 | over every run the debit-normal balances add up to the credit-normal ones |
| `Fees.NombaInboundFeeFor` | apps/backend/src/lib/fees.ts:10-15 | the provider's inbound cut lies between its floor and its cap, is at most one per cent of the amount above the floor, and at least one per cent, rounded down, below the cap |
| `Movements.LegsShape` | apps/backend/src/lib/fees.ts:28-110 | every builder's legs name each account once, only ever add to fee accounts and suspense, and recognise and clear the provider's fee by the same amount |
| `Movements.EveryRunKeepsBooks` | apps/backend/src/modules/ledger/ledger.service.ts:110-243 | over every run every balance is the sum of what the live transactions alone contributed, and each transaction's log rows are its builder's legs |
| `Movements.UndoAcceptedIff` | apps/backend/src/modules/ledger/ledger.service.ts:202-243 | reversing a live transaction is accepted exactly when each account still holds what it was given |
| `Movements.OutboundUndoAccepted` | apps/backend/src/lib/fees.ts:49-110 | a live outbound transfer can be reversed in every reachable state |
| `Movements.FundingUndoAcceptedIff` | apps/backend/src/modules/pots/contributions.service.ts:358-389 | a contribution can be reversed exactly while its pot and the float still hold its money |
| `Movements.UndoEffect` | apps/backend/src/modules/ledger/ledger.service.ts:202-243 | an accepted reversal takes exactly the original's legs back out of every account and leaves every other transaction and log row alone |
| `Movements.UndoAgainIsNoOp` | apps/backend/src/modules/ledger/ledger.service.ts:115-118 | reversing again under the same reference changes nothing |
| `Identity.PayOutAcceptedIff` | apps/backend/src/workers/worker.ts:145-170 | a disbursement is posted exactly when the pot covers amount plus fee and the float covers amount plus the provider's fee |
| `Identity.PayOutEffect` | apps/backend/src/lib/fees.ts:49-63 | a posted disbursement takes exactly amount plus fee from its pot and nothing from any other |
| `Identity.UndoPayOutEffect` | apps/backend/src/workers/worker.ts:188-193 | its reversal is always accepted and gives that pot back exactly what it paid |
| `Identity.FundEffect` | apps/backend/src/lib/fees.ts:28-46 | a funding credits its pot the intended amount and the float that plus the platform's cut |
| `Identity.UndoFundEffect` | apps/backend/src/modules/pots/contributions.service.ts:386-388 | its reversal takes exactly the intended amount back out of the pot |
| `Identity.ReversalOnRecord` | apps/backend/src/modules/ledger/ledger.service.ts:225-233 | an accepted reversal is itself on record: a completed reversal, for the amount of the original, naming no pot |
| `Flows.RowLeft` | apps/backend/src/modules/ledger/ledger.service.ts:136-150 | the row each posting leaves: its kind, its amount, its pot, and whether it awaits the provider |
| `Flows.PostMoves` | apps/backend/src/lib/fees.ts:28-111 | an accepted posting moves every account of the ledger by exactly its flow: the intended amount, the provider's cut and the platform's, each where it belongs, and nothing elsewhere |
| `Flows.UndoMoves` | apps/backend/src/modules/ledger/ledger.service.ts:202-243 | an accepted reversal moves every account back by exactly that |
| `Flows.BalancesAreFlows` | apps/backend/src/modules/ledger/ledger.service.ts:110-243 | after every run of postings, completions and reversals, every account holds exactly the sum of the flows of the transactions not reversed: no fee is booked twice, missed or at another rate |
| `Identity.OverpaymentRefundAcceptedIff` | apps/backend/src/lib/fees.ts:73-87 | an overpayment refund is posted exactly when the float covers it |
| `Identity.OverpaymentRefundEffect` | apps/backend/src/lib/fees.ts:73-87 | no pot pays for an overpayment refund |
| `Identity.AccountingIdentity` | apps/backend/src/lib/fees.ts:28-110 | over every run platform float plus suspense equals all pot balances plus platform revenue, and fee expense equals clearing |
| `Identity.AsIfNeverPosted` | apps/backend/src/modules/ledger/ledger.service.ts:202-243 | post an outbound transfer, let anything at all happen, completing, reposting or reversing that transfer included, and reverse it: every movement of another transaction accepted in between would have been accepted without it, the reversal is accepted, every account ends as if it had never been posted, and reversing again changes nothing |
| `Identity.FundedPotCanPay` | apps/backend/src/workers/worker.ts:145-168 | from an empty ledger a funding is accepted and so is any payout its pot then covers |
| `Identity.FloatCoversWithoutSuspense` | apps/backend/src/lib/fees.ts:28-110 | after any run, with nothing in suspense, a payout is posted whenever its pot covers it |
| `Identity.SuspenseCanBlockAPayout` | apps/backend/src/lib/fees.ts:65-87 | an overpayment refund can leave the float too short for a payout its pot covers |
| `LockOrder.SortedPlanAscends` | apps/backend/src/modules/ledger/ledger.service.ts:161-164 | sorting by account id makes every posting take its row locks in ascending order |
| `LockOrder.NoDeadlock` | apps/backend/src/modules/ledger/ledger.service.ts:161-169 | in every reachable state of any number of concurrent postings with one unfinished, some posting can take its next step |
| `LockOrder.AllCanFinish` | apps/backend/src/modules/ledger/ledger.service.ts:161-169 | from there all of them can be brought to their end without aborting any |
| `LockOrder.UnsortedLegsDeadlock` | apps/backend/src/lib/fees.ts:36-62 | in the order the leg builders list them, a funding and a payout of one pot can deadlock |
| `RefundSplit.DistributeExactly` | apps/backend/src/modules/pots/pots.service.ts:825-838 | the in-place split leaves each leg the amount the specification gives it |
| `RefundSplit.DistributesExactly` | apps/backend/src/modules/pots/pots.service.ts:825-838 | whatever the denominators, the amounts add up to the pool, every leg but the first largest has its truncated share, and that one also has the remainder |
| `RefundSplit.ShareTruncates` | apps/backend/src/modules/pots/pots.service.ts:822-833 | a share is the fraction of the pool rounded toward zero, and nothing without a positive denominator |
| `RefundSplit.RemainderBounds` | apps/backend/src/modules/pots/pots.service.ts:825-838 | if the fractions add up to at most one the remainder is not negative; if exactly one, it is below the number of legs |
| `RefundSplit.NarrowToFeeCoveredLegs` | apps/backend/src/modules/pots/pots.service.ts:855-871 | the narrowing loop terminates with the survivors holding their net amounts and every dropped leg at exactly zero |
| `RefundSplit.SurvivorsSettle` | apps/backend/src/modules/pots/pots.service.ts:855-871 | for any legs at all, survivors are positive and with one fee each add up to the balance exactly; some survive whenever the balance exceeds a fee per leg, none when it does not exceed one fee |
| `RefundSplit.NarrowingClosedForm` | apps/backend/src/modules/pots/pots.service.ts:855-871 | while no share nor the remainder is negative, narrowing takes at most two rounds: nobody is paid when even the largest leg with the remainder cannot cover the fee, otherwise exactly it and the legs whose own share exceeds the fee |
| `RefundSplit.PaysSomebodyIff` | apps/backend/src/modules/pots/pots.service.ts:855-871 | for every list of fractions adding up to at most one, somebody is paid if and only if the largest leg's share with the remainder exceeds one fee, after at most two rounds |
| `RefundSplit.AloneIsPaidIff` | apps/backend/src/modules/pots/pots.service.ts:853-871 | a leg alone is paid exactly when the balance exceeds the fee |
| `RefundSplit.CommentHoldsIff` | apps/backend/src/modules/pots/pots.service.ts:853-871 | for every list of fractions, an empty result means that no leg could pay its fee even alone if and only if the largest leg clears its fee in the split or the balance is no more than one fee |
| `RefundSplit.BothHalvesDropThoughEachCouldPay` | apps/backend/src/modules/pots/pots.service.ts:853-871 | two equal legs on 9000 kobo both drop although each alone could pay its fee, against what the comment says |
| `ContributorsRefund.Narrow` | apps/backend/src/modules/pots/pots.service.ts:855-871 | after narrowing every leg of the whole list carries its final amount |
| `ContributorsRefund.RefundDrainsOrNothing` | apps/backend/src/modules/pots/pots.service.ts:840-871 | no leg ends below zero, and what is paid draws the whole balance or nothing |
| `ContributorsRefund.EachLegsAmount` | apps/backend/src/modules/pots/pots.service.ts:855-874 | what each leg of a refund ends up with: nothing if it was narrowed away, and otherwise its own share less one fee, the leg with the largest share taking what rounding left over |
| `ContributorsRefund.GroupRows` | apps/backend/src/modules/pots/pots.service.ts:905-922 | each contributor has one group holding that contributor's rows in order, an anonymous row its own, groups come in order of first appearance with none left out, and the total is all that was contributed |
| `ContributorsRefund.GroupedTogetherIff` | apps/backend/src/modules/pots/pots.service.ts:905-922 | every row is in a group, and two rows are refunded together if and only if they are the same user's, or one anonymous contribution |
| `ContributorsRefund.RefundLegsAreFractions` | apps/backend/src/modules/pots/pots.service.ts:962-1029 | however contributors split into groups and payments, the legs are fractions of the pot that together never exceed one |
| `RefundLegs.EveryContributorServed` | apps/backend/src/modules/pots/pots.service.ts:962-1029 | for all rows: a contributor with a truncated share and an account on file gets exactly one leg, worth what they contributed over all contributed; one without an account gets a leg for each payment whose part of the share does not truncate away, worth that part; one without a share gets none; and the refund is refused exactly if some contributor has a share, no account and nothing paid to return it by, because of the first such |
| `RefundLegs.WorthTheWholeIff` | apps/backend/src/modules/pots/pots.service.ts:962-1029 | the legs are worth the whole pot if and only if no share and no payment's part of one truncates away, and otherwise less |
| `RefundDispatch.BuildLegs` | apps/backend/src/modules/pots/pots.service.ts:962-1029 | the leg objects built by the loops are those every contributor is due, in order, or the refusal of the first who cannot be refunded |
| `RefundDispatch.ClaimContributorsRefund` | apps/backend/src/modules/pots/pots.service.ts:882-1053 | each refusal exactly when it applies, in order, changing nothing, the status being the one read on entry; otherwise the lock was free, every contributor is served by the legs as the rows and the balance read say, one unit is held for each leg, and each leg carries its net share of the balance read |
| `RefundDispatch.Rescale` | apps/backend/src/modules/pots/pots.service.ts:1055-1064 | under the lock every leg is rescaled to the balance as it now stands, whether or not it moved since the claim |
| `RefundDispatch.RescaleAndDispatch` | apps/backend/src/modules/pots/pots.service.ts:1055-1100 | legs with something to send are queued, the rest give their unit back, a failing enqueue strands the legs from there on, and with none failing the queued legs draw exactly the fresh balance or nothing |
| `Protocol.LockAccounting` | apps/backend/src/modules/pots/pots.service.ts:773-777 | over any interleaving of steps whatever, stale readings, failures and errors included, the leg count is undispatched legs plus queued jobs plus processing transactions plus stranded units in every state, and the lock null exactly when that is zero, if and only if no error after a success gives back one of several legs twice |
| `Protocol.StepAccountsIff` | apps/backend/src/modules/pots/pots.service.ts:1104-1117 | every single step keeps that, except exactly such an error |
| `Protocol.ReleasedTwice` | apps/backend/src/workers/worker.ts:170-218 | that error leaves the lock one unit short of what is outstanding, and free while the last other leg still is |
| `Protocol.ErrorAfterSuccessLooksRejected` | apps/backend/src/workers/worker.ts:170-218 | an error thrown after a transfer succeeded leaves the pot as a rejection would: the money is out and the pot still counts it |
| `Protocol.ClearAgreesWithDecrement` | apps/backend/src/workers/worker.ts:243-245 | clearing a single-leg lock outright is the same as decrementing it |
| `Protocol.StrandedStays` | apps/backend/src/workers/worker.ts:141 | a unit stranded by a failed account lookup or enqueue, or by an error after a pending transfer's transaction was settled, is never recovered |
| `Protocol.ReleasableIff` | apps/backend/src/modules/pots/pots.service.ts:805-810 | from any reachable state some continuation frees the lock if and only if no unit is stranded |
| `Solvency.SolventUnderTheLock` | apps/backend/src/modules/pots/pots.service.ts:763-784 | which readings of balance and lock that have not gone stale see to, as long as no unit is given back twice |
| `Solvency.SolventWhenCovered` | apps/backend/src/modules/pots/pots.service.ts:763-784 | in every state a run of covered steps reaches, whatever else goes wrong, the pot covers all undispatched and queued legs with their fees, so the worker never finds it short |
| `Solvency.StepSolventIff` | apps/backend/src/workers/worker.ts:113-123 | from any state a run can reach, every step keeps the pot solvent except exactly a claim, a reversal or a rescaling that the balance does not cover beside what is reserved |
| `Solvency.RunSolventIff` | apps/backend/src/modules/pots/pots.service.ts:763-784 | every run of any steps is solvent throughout if and only if each step along it was covered when made |
| `Solvency.FreshReadCovers` | apps/backend/src/modules/pots/pots.service.ts:763-784 | while the lock accounts for what is outstanding, a step whose reading has not gone stale is covered |
| `Solvency.AdmittedFits` | apps/backend/src/modules/pots/payout-scheduler.service.ts:168-178 | a batch never reserves more than the balance it was admitted against |
| `Solvency.RescaledNeeds` | apps/backend/src/modules/pots/pots.service.ts:1055-1064 | the rescaled legs of a refund draw the whole balance just read, or nothing |
| `Solvency.StaleClaimReachesTheWorkerCheck` | apps/backend/src/workers/worker.ts:113-123 | read, reversal, claim: the job is queued short of funds and the worker's own check stops it, frees the lock and pays nothing |
| `Solvency.LateReversalLeavesAJobShort` | apps/backend/src/modules/pots/contributions.service.ts:373-386 | a reversal that read the lock as free before a claim is posted under it and leaves the queued job short |
| `StepLaws.ClaimAcceptedIff` | apps/backend/src/modules/pots/pots.service.ts:751-784 | a claim of any kind takes the lock if and only if it is free, the pot was read as open, and the balance read pays at least one leg with its fee; otherwise nothing happens |
| `StepLaws.OperationIsTheClaims` | apps/backend/src/modules/pots/pots.service.ts:773-777 | over every step, the lock becomes held by an accepted claim alone, as that claim's operation, and keeps its operation until it is free |
| `StepLaws.JobsOverRuns` | apps/backend/src/workers/worker.ts:101-241 | over any run, jobs queued are jobs put on the queue less those taken up, and jobs in transit those left with the provider unanswered less those settled, each as often as it was |
| `StepLaws.StrandedGrows` | apps/backend/src/modules/pots/pots.service.ts:786-802 | units are stranded in four ways and no other, and by how many: a single claim's or a refund's failed enqueue, a failed lookup, an error once a pending transfer is settled |
| `Schedules.TransferredTwiceIff` | apps/backend/src/modules/pots/payout-scheduler.service.ts:66-114 | after any run at all, errors and units given back twice included, some continuation that claims nothing brings a leg's transfers to two or more if and only if those made and those in flight are two or more |
| `Schedules.ClaimTransfersTwiceIff` | apps/backend/src/modules/pots/payout-scheduler.service.ts:78-111 | so after any run and a claim at its end: if and only if the leg's transfers so far, those in flight and those claimed now are two or more |
| `Schedules.NeverTwiceIff` | apps/backend/src/modules/pots/payout-scheduler.service.ts:66-114 | a leg is safe from a second transfer all along a run, whatever becomes of what is in flight, if and only if every claim of it has it once and finds it neither transferred nor in flight |
| `Schedules.EachLegPaidAtMostOnce` | apps/backend/src/modules/pots/payout-scheduler.service.ts:66-114 | over every run from a new schedule whose claims take payable legs not in flight, a leg's transfers are its fired flag plus those left unrecorded by an error; so with none of these each leg is paid at most once, exactly when it ends up marked fired |
| `Schedules.RecordingsAreFired` | apps/backend/src/modules/scheduler/apply-on-success.ts:39-43 | over any such run the payouts recorded for a leg are exactly the change in its flag, and its transfers those and the unrecorded ones |
| `Schedules.PayableRunIsClear` | apps/backend/src/modules/pots/payout-scheduler.service.ts:78-111 | while no unit is given back twice, a claim of payable legs takes none that is in flight |
| `Schedules.StaleSweepPaysTwice` | apps/backend/src/modules/pots/payout-scheduler.service.ts:78-93 | a sweep that read a leg before its payout completed and claims afterwards transfers it a second time |
| `Schedules.ErrorPaysTheLegAgain` | apps/backend/src/workers/worker.ts:170-218 | a leg transferred, but whose recording throws, is transferred a second time by the next sweep, all its readings fresh and the leg payable |
| `Schedules.EarlyReleasePaysTwice` | apps/backend/src/workers/worker.ts:170-218 | a concrete run in which a unit given back twice frees the lock with a leg still queued: the next sweep claims that leg, fresh and payable, and it can be transferred twice; a reversal accepted then leaves the queued job short |
| `Schedules.OrderedInSequence` | apps/backend/src/modules/pots/payout-scheduler.service.ts:78-93 | over any run of such claims, errors included, an ordered schedule's payouts are recorded strictly in sequence and its fired legs always form a prefix |
| `PotRules.RecurringAdvances` | apps/backend/src/modules/scheduler/apply-on-success.ts:23-37 | a recurring rule's next run is its first plus an interval for every recorded payout, whichever path recorded it |
| `PotRules.TargetClosesIff` | apps/backend/src/modules/pots/target-based-payout.service.ts:61-75 | a dated target closes its pot when the worker sees the success itself, and not when a webhook brings it |
| `PotRules.StatusChangesIff` | apps/backend/src/modules/pots/target-based-payout.service.ts:61-75 | for every state and step, the status changes if and only if an open pot is closed by its admin, or the success of a target with a date is recorded while the lock, once given back, is free |
| `PotRules.UndatedStaysOpen` | apps/backend/src/modules/pots/target-based-payout.service.ts:61-75 | over any run, no payout closes a pot whose target has no date |
| `PotRules.RuleChanges` | apps/backend/src/modules/scheduler/apply-on-success.ts:14-45 | every step leaves the payout rule as it is, but that a recorded success marks its target fired, moves its recurring rule on by one interval, or marks its own leg fired and no other |
| `PotRules.ClosedForGood` | apps/backend/src/modules/pots/pots.service.ts:513-546 | along any run whatever a closed pot has no operation in flight if and only if every claim that took the lock did so while the pot was open |
| `PotRules.LateClaimLocksAClosedPot` | apps/backend/src/modules/pots/pots.service.ts:773-777 | the claim does not look at the status: read open, close at zero, credit, claim on the fresh balance, and a closed pot is locked with a job queued |
| `PotRules.Conservation` | apps/backend/src/modules/pots/pots.service.ts:763-802 | over any run, failures and errors included, balance and transfers in transit plus what completed payouts drew are what there was before plus what was funded less what was reversed |
| `PotRules.ClosedPotHolds` | apps/backend/src/modules/pots/contributions.service.ts:188-200 | a closed pot stays closed and holds exactly what it held, plus the fundings since, less those reversed, less what late claims paid or have in transit; with the exact condition for that to be nothing, with and without a late claim |
| `PotRules.ClosesEmptyIff` | apps/backend/src/modules/pots/pots.service.ts:525-541 | the closing update tests the lock alone: a pot it closes is empty if and only if the balance read has not been overtaken |
| `PotRules.FundingOvertakesClosing` | apps/backend/src/modules/pots/pots.service.ts:525-541 | a contribution credited between the reading and the update is locked into a closed pot |
| `PotRules.ClosedPotCanBeFunded` | apps/backend/src/modules/pots/contributions.service.ts:188-200 | any closed pot can be credited any amount, since funding does not look at the status |
| `Desk.Disbursements.ClearPendingOperation` | apps/backend/src/modules/pots/pots.service.ts:805-810 | only the lock changes, to free |
| `Desk.Disbursements.DecrementPendingOperationLeg` | apps/backend/src/modules/pots/pots.service.ts:1104-1117 | one unit less, and free at zero |
| `Desk.Disbursements.ReleaseLock` | apps/backend/src/workers/worker.ts:243-245 | a fan-out leg gives back its unit, any other job the whole lock |
| `Desk.Disbursements.ApplyOnSuccess` | apps/backend/src/modules/scheduler/apply-on-success.ts:14-45 | the success side effect as the protocol states it, closing the pot if and only if it is the fired target of an open, free pot and the target has a date |
| `Desk.Disbursements.PostPayOut` | apps/backend/src/workers/worker.ts:145-168 | with the pot covering the job, only a short float turns its posting down, and then nothing changes |
| `Desk.Disbursements.ProcessLedgerDisbursement` | apps/backend/src/workers/worker.ts:101-241 | the worker's whole attempt, on the real ledger and with an error possible at each statement that records a success, is one step of the protocol, with exactly the outcome its inputs and the float decide; books, ledger and lock stay consistent unless a unit is given back twice |
| `Desk.Disbursements.ResolvePendingTransfer` | apps/backend/src/modules/pots/pots.service.ts:679-712 | a pending transfer of the pot is settled as one step of the protocol, always accepted by the ledger; what throws once the transaction is settled strands the leg's unit, what throws before changes nothing; an unknown or settled one is left alone, so repeating it changes nothing |
| `Desk.Disbursements.PostFixedAmountDisbursement` | apps/backend/src/modules/pots/pots.service.ts:751-802 | the claim, on a pot of any status, is one step of the protocol, refused exactly when the balance does not cover amount plus fee or the lock is held; a failing enqueue leaves the unit held |
| `Desk.Disbursements.PostDisbursement` | apps/backend/src/modules/pots/pots.service.ts:723-736 | what is queued draws the whole balance, fee included; nothing happens when the fee is not covered |
| `Desk.Disbursements.TriggerPayout` | apps/backend/src/modules/pots/pots.service.ts:555-631 | which answer every trigger gets, each refusal in order; accepted exactly when the pot was read as open, pays manually, has a destination, is free, and the amount, given or whole, is positive and covered with its fee; a failing enqueue leaves the unit held, any other refusal changes nothing |
| `Desk.Disbursements.Close` | apps/backend/src/modules/pots/pots.service.ts:513-546 | closing answers by the status, lock and balance as read, and then by the lock as it is at the update; a pot it closes has nothing outstanding |
| `Desk.Disbursements.CreditContribution` | apps/backend/src/modules/pots/contributions.service.ts:259-287 | crediting a covered contribution is the protocol's funding step |
| `Desk.Disbursements.ReverseContribution` | apps/backend/src/modules/pots/contributions.service.ts:378-388 | refused if an operation was in flight when the lock was read, and otherwise accepted exactly when pot and float still hold the money, whoever has the lock by then |
| `Desk.OthersLeaveThePotAlone` | apps/backend/src/workers/worker.ts:101-241 | nothing done for other pots, or for payments that never reached one, moves this pot's balance or its processing transactions |
| `FanOut.DispatchNext` | apps/backend/src/modules/pots/pots.service.ts:1042-1100 | one turn of a dispatch loop is one step of the protocol |
| `PayoutScheduler.Admit` | apps/backend/src/modules/pots/payout-scheduler.service.ts:168-178 | the admission loop admits what greedy admission admits, `reserved` is exactly what that draws, and every due leg is admitted or skipped |
| `PayoutScheduler.AdmissionMaximal` | apps/backend/src/modules/pots/payout-scheduler.service.ts:160-178 | admission stays within the balance, and no leg passed over would fit in what is left at the end |
| `PayoutScheduler.AdmissionSplits` | apps/backend/src/modules/pots/payout-scheduler.service.ts:168-178 | admitted and passed-over legs are together the due legs |
| `PayoutScheduler.AdmittedIffFits` | apps/backend/src/modules/pots/payout-scheduler.service.ts:168-178 | each leg is admitted exactly when it fits after those admitted before it, so none blocks a later, smaller one |
| `PayoutScheduler.EnqueueUnorderedLegs` | apps/backend/src/modules/pots/payout-scheduler.service.ts:160-225 | whatever the pot's status, fired plus skipped is the due legs, the lock ends up counting exactly the legs queued, and is free if there are none |
| `PayoutScheduler.EnqueueLeg` | apps/backend/src/modules/pots/payout-scheduler.service.ts:118-142 | whatever the pot's status, a single leg fires exactly when covered, the lock free and the enqueue through, and the pot moves by the protocol's claim |
| `PayoutScheduler.SentIff` | apps/backend/src/modules/pots/payout-scheduler.service.ts:160-225 | a leg's job, with its own amount and reference, is among those sent if and only if the leg is due, not fired, fits in what the due legs admitted before it leave of the balance, and its enqueue goes through |
| `PayoutScheduler.FireNextLeg` | apps/backend/src/modules/pots/payout-scheduler.service.ts:78-93 | only the lowest unfired leg of an ordered schedule fires, only once due, exactly when covered, the lock free and the enqueue through, and its claim is payable |
| `PayoutScheduler.FireDueLegs` | apps/backend/src/modules/pots/payout-scheduler.service.ts:95-111 | with the lock free the unordered sweep queues exactly those legs, in order, the lock counting them, and leaves the rest of the pot alone; with the lock held it does nothing; fired is the number queued, and fired plus skipped the legs due |
| `PayoutScheduler.FireDueRecurring` | apps/backend/src/modules/pots/payout-scheduler.service.ts:21-63 | a rule read as open and due makes the protocol's claim, firing exactly when the lock is free, the amount covered and the enqueue through, a failed enqueue leaving its unit held; any other is left unchanged |
| `Expiry.ExpiryRefundAcceptedIff` | apps/backend/src/lib/fees.ts:96-110 | an expiry refund is posted exactly when the float covers it |
| `Expiry.ExpiryRefunds.ProcessContributionRefund` | apps/backend/src/workers/worker.ts:256-332 | a transfer is made exactly when the account is found and the refund is not processing, and is on the ledger already or covered by the float; a new one ends completed, processing or reversed as the provider answers, one settled before is transferred again without a posting, and books and marks stay right exactly when the second answer does not contradict the first |
| `Expiry.ResettledValidIff` | apps/backend/src/workers/worker.ts:298-326 | after a second transfer the books agree with the log and the marks with the ledger if and only if a completed refund is not rejected and a reversed one does not succeed |
| `Expiry.ResettledDoes` | apps/backend/src/workers/worker.ts:298-326 | a refund transferred a second time ends as the second answer says, and money moves only when that rejects a refund completed before, whose whole flow is taken back |
| `Expiry.ExpiryRefunds.ResolvePendingTransfer` | apps/backend/src/modules/pots/pots.service.ts:679-712 | a processing expiry refund is settled once, marked or reversed; anything else is left alone |
| `Funding.FundedIff` | apps/backend/src/modules/pots/contributions.service.ts:180-355 | on any ledger, whatever else happens in between, a contribution ends funded if and only if its distinct payments add up to the gross amount; then the log has exactly one set of its legs, and until then none, with all of them recorded and their total below it |
| `Funding.RecordFundedIff` | apps/backend/src/modules/pots/contributions.service.ts:229-252 | of the record alone: funded exactly at the gross amount, and then by the last payment recorded |
| `Funding.OrderAndRepetitionDoNotMatter` | apps/backend/src/modules/pots/contributions.service.ts:180-355 | the same payments in any order, with any repetitions and on whatever ledgers, fund it alike and leave the same legs in the log |
| `Funding.OverpaymentDecomposition` | apps/backend/src/modules/pots/contributions.service.ts:310-350 | in the funding step this payment's excess is all that was received beyond the gross amount; above the fee, received = intended + inbound fee + refund + outbound fee, and the amount recomputed for the provider is the amount posted |
| `Funding.ConfirmDoes` | apps/backend/src/modules/pots/contributions.service.ts:180-355 | one delivery, case by case: nothing unless it counts; short of the gross amount it is recorded; at it the pot is credited, unless the ledger refuses the contribution becomes funded, and this payment's own excess, if above the outbound fee, is posted back less that fee |
| `Funding.RefundPostedIff` | apps/backend/src/modules/pots/contributions.service.ts:330-346 | the overpayment refund is posted exactly when the float, with what the funding itself added, covers it |
| `Funding.LaterDeliveriesChangeNothing` | apps/backend/src/modules/pots/contributions.service.ts:200-202 | once funded, no delivery changes anything, so a refund the float could not cover is not tried again |
| `Funding.CreditedExactlyOnce` | apps/backend/src/modules/pots/contributions.service.ts:265-295 | in any interleaving with anything else the ledger does, a funded contribution has exactly one set of legs in the log, for the intended amount, and one not funded has none |
| `Funding.StatusMovesIff` | apps/backend/src/modules/pots/contributions.service.ts:180-389 | in every state the books agree with: which event moves a contribution to underpaid, funded, reversed or failed, each exactly when, and none moves it back |
| `Funding.ReversedIff` | apps/backend/src/modules/pots/contributions.service.ts:358-389 | a contribution is reversed if and only if it is funded, its pot was free and pot and float still hold the money; every account then moves back by its flow, and otherwise nothing does |
| `Funding.ContributionRow.ConfirmFunding` | apps/backend/src/modules/pots/contributions.service.ts:180-355 | one delivery does that to row, payments and ledger, and sends to the provider exactly this payment's excess less the outbound fee if it funds the contribution, the excess is above the fee and its posting is accepted, and nothing in every other case |
| `Funding.ContributionRow.ReverseFunding` | apps/backend/src/modules/pots/contributions.service.ts:358-389 | only a funded contribution of a pot with nothing in flight is reversed, and only if the ledger accepts it |
| `Idempotency.AtMostOneRun` | apps/backend/src/lib/idempotency.service.ts:51-95 | over every interleaving, crashes and lost acknowledgements included, fn never runs twice at once and at most one run returns but for one more per result whose saving threw; all who get a result get what a run returned and, unless a save went through unacknowledged, what the last one returned, under one request |
| `Idempotency.CanStartIff` | apps/backend/src/lib/idempotency.service.ts:58-94 | another run can ever start if and only if a caller is still to come and the key is free or its owner may yet give it up |
| `Idempotency.SecondRunIff` | apps/backend/src/lib/idempotency.service.ts:81-94 | once fn has returned it can run again if and only if its result is still unsaved and another caller is still to come |
| `Idempotency.OwnerlessIsFinal` | apps/backend/src/lib/idempotency.service.ts:66-78 | once a row is there and nobody owns it, because its result was recorded, it failed indeterminately or its owner died, nothing runs again and the row never changes |
| `Idempotency.IndeterminateIsFinal` | apps/backend/src/lib/idempotency.service.ts:81-91 | from any reachable state, once a running fn fails indeterminately it is never run again whatever the callers do, the row is there for good, and the caller, having thrown, leaves it marked as failed indeterminately |
| `Idempotency.PlainFailureFreesTheKey` | apps/backend/src/lib/idempotency.service.ts:88-94 | after any other failure the row is gone, and fn can run again if and only if a caller is still to come |
| `Idempotency.AnsweredByTheRow` | apps/backend/src/lib/idempotency.service.ts:66-78 | a caller that finds a row is told key reuse exactly if it is another request's, and otherwise in progress, indeterminate or the recorded result exactly as the row says |
| `Idempotency.AnsweredAsRead` | apps/backend/src/lib/idempotency.service.ts:66-78 | the same of a caller that comes to read, whatever has become of the row: with the row gone it is told key reuse; nothing else changes |
| `Idempotency.ContradictedIff` | apps/backend/src/lib/idempotency.service.ts:81-94 | a result given out can be followed by a different one, while it is on record if and only if another caller is still to come and the owner, its save not acknowledged, is about to delete the row; once the row is gone if and only if a caller is still to come; and in every state as the next row says |
| `Idempotency.AnotherGivenIff` | apps/backend/src/lib/idempotency.service.ts:58-94 | from any reachable state somebody can yet be given a result other than a given one if and only if the key is open, a run is in progress, another result is being saved, or one is on record with a caller of the same request still to read it |
| `Idempotency.LostAnswerGivesTwoResults` | apps/backend/src/lib/idempotency.service.ts:81-94 | three callers with one request can come to that |
| `Webhooks.AtMostOneDispatch` | apps/backend/src/integrations/nomba/nomba-webhooks.service.ts:11-102 | over every interleaving of deliveries of one event, crashes included, at most one dispatch is in progress and at most one ever succeeds |
| `Webhooks.CanDispatchIff` | apps/backend/src/integrations/nomba/nomba-webhooks.service.ts:47-94 | another dispatch can begin if and only if some delivery is ready and the claim is free or may yet be released; a delivery that dies holding it ends the event for good |
| `Webhooks.ProcessedIffFinished` | apps/backend/src/integrations/nomba/nomba-webhooks.service.ts:61-101 | over every run the event is marked processed if and only if some delivery got through to the end, and at most one ever does |
| `Webhooks.ThrowGivesTheClaimBack` | apps/backend/src/integrations/nomba/nomba-webhooks.service.ts:90-96 | after a handler that throws, whatever the others do meanwhile, the event ends unclaimed and unprocessed, and is dispatched again if and only if a delivery is ready |
| `Webhooks.SuccessIsMarked` | apps/backend/src/integrations/nomba/nomba-webhooks.service.ts:98-101 | after a handler that returns, the event is marked processed for good and nothing is dispatched again |
| `Webhooks.DeathHoldsTheClaim` | apps/backend/src/integrations/nomba/nomba-webhooks.service.ts:52-101 | a delivery that dies holding the claim leaves the event claimed and unprocessed for good |
| `Throttle.InMemoryTransferThrottle.Reserve` | apps/backend/src/integrations/nomba/transfer-throttle.ts:75-88 | one call prunes, counts and grants as the specification says, with its two clock readings |
| `Throttle.ScriptAgrees` | apps/backend/src/integrations/nomba/transfer-throttle.ts:12-21 | the Redis script does the same with one clock reading |
| `Throttle.PruningChangesNothing` | apps/backend/src/integrations/nomba/transfer-throttle.ts:75-88 | on a clock that never runs back the pruned lists answer every call as the full history of grants would |
| `Throttle.EveryWindowWithinLimit` | apps/backend/src/integrations/nomba/transfer-throttle.ts:41-58 | then every half-open window holds at most the limit of grants per recipient, whatever the mix |
| `Reconciliation.Reconcile` | apps/backend/src/integrations/nomba/nomba.client.ts:324-387 | the page loop terminates under any cursor behaviour; the report holds one item per transaction with a reference and one per expectation no page mentioned, each classified by its difference |
| `Reconciliation.AbortsIff` | apps/backend/src/integrations/nomba/nomba.client.ts:341-367 | the run aborts exactly when each of the first ten thousand pages names another |
| `Reconciliation.PagesAreFetched` | apps/backend/src/integrations/nomba/nomba.client.ts:341-367 | a run that does not abort reads every page up to the first that names no other, in order and no more |
| `Reconciliation.ItemsWellMade` | apps/backend/src/integrations/nomba/nomba.client.ts:389-412 | an item's status is the sign of received less expected, or says which side is absent |
| `Reconciliation.ItemsTraceBack` | apps/backend/src/integrations/nomba/nomba.client.ts:344-357 | every transaction with a reference gives one line item and no other does, in order, with its reference and amount and the local record's amount and customer, an orphan exactly when there is no record |
| `Reconciliation.MissingIff` | apps/backend/src/integrations/nomba/nomba.client.ts:369-383 | of a set of references seen, an expected one is reported missing exactly when it is not among them |
| `Reconciliation.MissingIffNotCarried` | apps/backend/src/integrations/nomba/nomba.client.ts:344-383 | an expectation is reported missing exactly when no transaction carries its reference, outbound by its own and inbound by its account's |
| `Reconciliation.MissingTracesBack` | apps/backend/src/integrations/nomba/nomba.client.ts:369-383 | each such expectation gives one line item, in order, with its reference and the local record's amount and customer |
| `Reconciliation.BuildReport` | apps/backend/src/integrations/nomba/nomba.client.ts:415-470 | the five counts add up to the items checked, and every customer has one bucket, in order of first appearance |
| `Reconciliation.OneBucketEach` | apps/backend/src/integrations/nomba/nomba.client.ts:425-450 | every line item lands in exactly one bucket, its customer's, or that of the unknown when it has none |
| `Reconciliation.BucketInOrder` | apps/backend/src/integrations/nomba/nomba.client.ts:425-442 | a customer's bucket holds that customer's items alone, each once and in order |
| `Reconciliation.EveryCustomerBalances` | apps/backend/src/integrations/nomba/nomba.client.ts:443-450 | per customer received less expected equals overpaid less underpaid plus orphan less missing amounts |
| `Reconciliation.FiguresAddUp` | apps/backend/src/integrations/nomba/nomba.client.ts:443-455 | each of a customer's four totals is the sum over that customer's items of what the two amounts say, and over all customers it is the sum over all items |
| `Reconciliation.CountsAddUp` | apps/backend/src/integrations/nomba/nomba.client.ts:457-468 | every line item is counted under exactly one status |
| `Reconciliation.ExactIsExact` | apps/backend/src/integrations/nomba/nomba.client.ts:64-68 | reading a signed two-decimal amount back as kobo loses nothing |
| `Money.PrintThenParse` | apps/backend/src/lib/money.ts:14-30 | every non-negative amount prints as a valid naira string that parses back to it, and a negative one prints as a string the parser refuses |
| `Money.ParseThenPrintIff` | apps/backend/src/lib/money.ts:14-30 | a valid string parses and prints to itself exactly when it has no superfluous leading zero |
| `Money.WebParsesTheSame` | apps/web/lib/money.ts:78-81 | on valid strings the browser's parser gives what the backend's does |
| `Money.WebRoundTripIff` | apps/web/lib/money.ts:78-90 | the browser's round trip is exact for non-negative amounts and whole negative naira, and no other amount |
| `Money.AddNairaAdds` | apps/web/lib/money.ts:93-95 | adding in the browser is adding in kobo |
| `Money.SubtractNairaIff` | apps/web/lib/money.ts:98-100 | subtracting is too, and gives a valid string exactly when the result is not negative |
| `Money.WebFeeIsTheBackendFee` | apps/web/lib/money.ts:103-120 | the fee the browser previews, parsed back to kobo, is the backend's fee on every amount |

## Left out

- Retries by the job queue and the endpoint that requeues failed jobs: a pot's job is attempted once, so the worker's
  guard for a reference already processing is never reached for it (it is for expiry refunds, whose jobs may recur).
- A success effect that throws half-way: it updates one row, or none. Errors while an expiry refund's success is
  recorded: only those of a pot's job are modelled.
- Marking a transaction completed that is no longer processing: `Movements` has no such step; the one caller that does
  so, a second expiry refund, is in `Expiry`.
- Crashes inside `confirmFunding`, where a redelivery finds the payment recorded and returns early.
- The expiry sweep's loop and its rollback after a partial enqueue; only its refunds' postings and settlement.
- A provider transaction id shared by two contributions: payments are unique per contribution here, across all in the source.
- `checkAndFireForPot` inside `confirmFunding`, and the target-based sweep's due test: a target's payout enters as a claim.
- Accounts created on first use: the account table is given, with an order on ids standing for the ids' text order.
- A balance row that does not exist yet is not locked by the source until inserted; `LockOrder` treats it as existing.
- References are a datatype with one constructor per string format; that the formats never collide is taken from it.
- Timestamps, external references and the rest of a transaction's metadata; times are integers, intervals whole days.
- Floating point: provider amounts are exact to two decimals, so `toFixed(2)` and `Number` are exact.
- BigInt's hexadecimal and whitespace forms in the browser's parser; its display and input-sanitising helpers.
- The Redis throttle's key expiry, and Redis itself: the script is a function on the same lists.
- Which handler each webhook event type goes to; `Webhooks` has one handler that succeeds or throws.
- HTTP, schemas, sign-in, membership, e-mail, listings and the front end: input and output with no rule about money.
- PayoutScheduler.EnqueueUnorderedLegs: no worker interleaves with its dispatch loop, though in the protocol one may.
- RefundDispatch.RescaleAndDispatch: nor with this one.
- The services' methods start from states in which the lock accounts for what is outstanding; what follows once a unit
  was given back twice is in the protocol alone.
- Desk.Disbursements.ResolvePendingTransfer: covers outcomes routed to the pot the transaction names; expiry refunds are in `Expiry`.

# Spend ledger, outbox, buyer policy and commercial lifecycle

This project models the B2B commitment path in Dafny and proves properties of the model.

- **Spend reservation ledger** (`Spend*.dfy`, `LockOrder.dfy`). Six commands (submit, resubmit, commit, release, expire, rollover) move money between `reserved` and `committed` on several budgets at once. `SpendLedger` is the capacity trigger as a function from table state to table state, `SpendCommands` the commands as such functions, and `SpendStore` the same commands as methods of a class that updates its tables in place, each proved equal to its function. On these functions rest the theorems: what the balances mean after any run, that nothing overspends, exactly when each command is admitted, how commit and rollover answer for each other, what retries do, and when concurrent commands cannot deadlock.
- **Buyer operation policy** (`BuyerPolicy.dfy`, `Policy*.dfy`, `Numerals.dfy`). The pure evaluator, what its ALLOW means, that it fails closed, that it does not depend on the order of records, and how its budget arithmetic agrees with the ledger.
- **Outbox dispatcher** (`Outbox*.dfy`). The claim and fenced completion of rows, a transition system of workers, broker and crashes, and the dispatcher loop as a class.
- **Commercial lifecycle** (`Commercial*.dfy`, `Decimals.dfy`, `CanonicalJson.dfy`). RFQs and quotations with their cascade, versions, guards and replay; exact decimal arithmetic on strings; the canonical JSON text with a parser that inverts it.
- **Buyer context snapshot** (`BuyerSnapshot.dfy`). Reads, a re-read, and writers in between.

Every operation is stated twice: as the program computes it, and in the columns of its tables, with the comparisons, constants and reasons written out and none of the program's own checks. The lemmas that join the two (`SpendTrigger.TriggerSays`, `SpendAnswers.EveryAnswer`, `SpendRecords.EveryEntry` and `EveryRow`, `PolicyVerdict.VerdictIs`, `PolicyLoading.BudgetLoads`, `OutboxRefinement.TurnEnds`, `CommercialTerms.OutcomeIs`, `SnapshotTerms.EvaluateIs`, `CanonicalTexts.TextIs`) hold for all inputs, so each theorem about the one reads as a theorem about the other.

Conventions: a table is a map, a transaction is one function from tables to tables and an answer, and what a transaction meets (its instant, the month of an instant in a time zone, new identifiers, the broker's reply, the answers of an authority) is a parameter. Hashes are injective: a request digest is the request, a derived id or entry key is what it is derived from. Amounts are unbounded integers, as `bigint` and `numeric` are.

What the code does where it differs from what its comments or its design promise:

- The single budget order does not order balance rows: one budget has a row per period, and a rollover that runs on one side of a period's end may return a hold on the other. `SpendCrossing.CommandsDeadlockIff` says exactly when two commands of one state can then wait for each other, `SpendDeadlock.DeadlockReachable` gives a run after which two that would each apply alone do. The database would then abort one of the two with an error that reads as SOURCE_UNAVAILABLE.
- The policy reads a budget's current balance by the bounds stored with the row, the ledger by the budget's present time zone and interval. They agree as long as edits leave those alone (`PolicyPeriods.SteadyRunsAlign`). After other edits they agree on every amount exactly when the tightest of the purchase's budgets leaves the same by both counts (`PolicyDivergence.ForeseesEveryIff`); a time zone edit can make the policy refuse what the ledger admits (`PolicyExamples.EditedZoneDisagrees`), and an extended agreement term can make it allow what the ledger refuses (`PolicyExamples.ExtendedTermDisagrees`). For a purchase with its own live reservation `PolicyOwnHold.OwnForeseesIff` gives the same comparison against its rollover.
- A cascade decides EXPIRED or WITHDRAWN by the clock reading of the command, the guard by its own later one; a validity that ends in between refuses the whole command (`CommercialRuns.RfqCommandApplies`, with a run in `CommercialStraddle.CascadeRefused`).
- Because of the table guard no RFQ but a QUOTED one keeps an ISSUED quotation, CLOSED and DECLINED ones included; the program alone would let QUOTED move to CLOSED or UNDER_REVIEW beside one.
- The order in which an operation names its Sites can change the refusal's reason (`PolicySiteOrder.SiteUseOrderShows`), exactly when some named Site is foreign and another is the Organisation's own but unserved (`PolicySiteOrder.SiteUseOrderMatters`).

## Model

| member | source | states |
|---|---|---|
| `SpendTruth.LedgerTruth` | src/modules/b2b/migrations/Migration20261022150000.ts:252-380 | After any run of commands, budget edits and membership changes, each budget period's reserved amount is what ACTIVE reservations hold and what the ledger's entries net to, its committed amount is the sum of COMMIT entries, closed reservations hold nothing, and a revision under which something was admitted is within its limit |
| `SpendTruth.NoOverspend` | src/modules/b2b/migrations/Migration20261022150000.ts:329-349 | No command, in any state whatever, takes committed plus reserved of a budget period above the limit in force, nor further above it |
| `SpendTruth.OnePurchaseOneReservation` | src/baobab/b2b/spend-reservation-commands.ts:177-203 | In every reachable state a purchase has at most one ACTIVE reservation, nothing is superseded twice, and along supersedes links the version rises while the purchase's binding stays |
| `SpendTruth.OnlyActiveHold` | src/modules/b2b/migrations/Migration20261022150000.ts:187-205 | The sum over all hold rows of a period equals the sum over those of ACTIVE reservations |
| `SpendRuns.AlwaysInvariant` | src/baobab/b2b/spend-reservation-commands.ts:672-745 | The accounting, hold and supersession invariants hold after every run, with transaction clocks in any order |
| `SpendRuns.RunKeeps` | src/baobab/b2b/spend-reservation-commands.ts:672-745 | Whatever one command does, applied or not, the invariants stay |
| `SpendRuns.EnvironmentKeeps` | src/modules/b2b/migrations/Migration20261022150000.ts:75-107 | Adding, editing, suspending or retiring budgets and changing memberships keep the invariants |
| `SpendRuns.EditRevises` | src/modules/b2b/migrations/Migration20261022150000.ts:75-107 | A budget is edited unless RETIRED or malformed; any change of status, time zone, limit or term is one revision, none is none, and its binding stays |
| `SpendRuns.AddStarts` | src/modules/b2b/migrations/Migration20261022150000.ts:62-84 | A well-formed budget is added under a new id at revision 1 |
| `SpendBooks.BooksKept` | src/modules/b2b/migrations/Migration20261022150000.ts:252-380 | One accepted ledger entry keeps balance, holds and ledger in agreement and every admitted revision within its limit |
| `SpendBooks.AgreementKept` | src/modules/b2b/migrations/Migration20261022150000.ts:294-300 | An entry moves a balance, its holds' sum and the ledger's net by the same amount in the same period |
| `SpendBooks.JudgeMoves` | src/modules/b2b/migrations/Migration20261022150000.ts:329-377 | RESERVE adds to hold and balance, RELEASE subtracts from both, COMMIT moves both from reserved to committed |
| `SpendBooks.JudgeLimits` | src/modules/b2b/migrations/Migration20261022150000.ts:333-345 | An accepted RESERVE is at the budget's revision, leaves its hold at that revision and the balance within the limit |
| `SpendTrigger.TriggerSays` | src/modules/b2b/migrations/Migration20261022150000.ts:252-380 | In any tables whatever, one entry is refused for exactly these objections in the columns of budget, reservation, hold and balance, each with the reason the command reports, and otherwise writes exactly these three rows |
| `SpendBooks.HoldWithinBalance` | src/modules/b2b/migrations/Migration20261022150000.ts:294-299 | A hold never exceeds the balance that contains it, so a release of what is held cannot make a balance negative |
| `SpendKeeps.SubmitKeeps` | src/baobab/b2b/spend-reservation-commands.ts:394-411 | An applied submission keeps the invariants and touches only its own holds |
| `SpendKeepsMore.ResubmitKeeps` | src/baobab/b2b/spend-reservation-commands.ts:177-218 | An applied resubmission keeps the invariants, though the superseded reservation is closed before its holds are returned |
| `SpendKeepsMore.CommitKeeps` | src/baobab/b2b/spend-reservation-commands.ts:247-322 | An applied commit keeps the invariants |
| `SpendKeepsMore.CloseKeeps` | src/baobab/b2b/spend-reservation-commands.ts:544-573 | An applied release or expiry keeps the invariants |
| `SpendKeepsMore.RolloverKeeps` | src/baobab/b2b/spend-reservation-commands.ts:346-392 | An applied rollover keeps the invariants |
| `SpendKeepsMore.CloseEffect` | src/baobab/b2b/spend-reservation-commands.ts:559-566 | Closing returns every hold and is never refused by the trigger |
| `SpendKeepsMore.CommitEffect` | src/baobab/b2b/spend-reservation-commands.ts:293-310 | A commit whose guard holds is never refused by the trigger and converts exactly what is held |
| `SpendKeepsMore.CommitLeavesNothing` | src/baobab/b2b/spend-reservation-commands.ts:278-313 | A commit spends each hold of its reservation in full and leaves none, and moves no other reservation's hold |
| `SpendKeepsMore.RolloverEffect` | src/baobab/b2b/spend-reservation-commands.ts:357-389 | A rollover with room leaves the full amount held in each applicable budget's current period at its current revision and nothing else; otherwise its only refusal is the spend limit |
| `SpendPlans.OrderAcrossBudgetsIsFree` | src/baobab/b2b/spend-reservation-commands.ts:119-125 | Two orders of one command's entries that agree within each budget end in the same tables or both refuse |
| `SpendPlans.InterleavingIsBatching` | src/baobab/b2b/spend-reservation-commands.ts:465-486 | The loop that per budget releases and then reserves ends like releasing everything and then reserving everything |
| `SpendPlans.Commute` | src/modules/b2b/migrations/Migration20261022150000.ts:266-328 | Entries of different budgets commute |
| `SpendPlans.RefusalIsLocal` | src/baobab/b2b/spend-reservation-commands.ts:478-485 | Whatever refuses a whole plan refuses already one budget's own part of it |
| `SpendOutcome.PlanOutcome` | src/baobab/b2b/spend-reservation-commands.ts:465-486 | The interleaved plan succeeds exactly when every budget has room once the command's own holds in it are returned; the only refusal is insufficient capacity |
| `SpendOutcome.BatchOutcome` | src/baobab/b2b/spend-reservation-commands.ts:465-486 | The same of the batched plan, with the state between releases and reservations |
| `SpendEffects.ReleasesEffect` | src/baobab/b2b/spend-reservation-commands.ts:512-542 | The releases of a command return exactly the chosen holds to their balances |
| `SpendEffects.ReservesEffect` | src/baobab/b2b/spend-reservation-commands.ts:488-510 | The reservations of a command add exactly the wanted amounts at the current periods |
| `SpendEffects.ReservesSucceed` | src/modules/b2b/migrations/Migration20261022150000.ts:338-345 | Reservations are admitted exactly when each budget has room, and are otherwise refused for capacity |
| `SpendEffects.ReleasesSucceed` | src/modules/b2b/migrations/Migration20261022150000.ts:281-301 | Releases of what is held are never refused |
| `SpendEffects.CommitsApply` | src/modules/b2b/migrations/Migration20261022150000.ts:350-368 | Commits of full current holds are never refused and move exactly those amounts |
| `SpendAdmission.SubmitAnswered` | src/baobab/b2b/spend-reservation-commands.ts:163-167 | A submission is answered in this order: not a member, an ACTIVE reservation in the way, a budget configuration refusal, a shortfall; it is admitted exactly when every applicable budget has limit minus committed minus reserved for it |
| `SpendAdmission.ResubmitAnswered` | src/baobab/b2b/spend-reservation-commands.ts:177-218 | A resubmission meets the same, after its own checks, with each budget's current hold of the superseded version counted back, so it needs room for the difference only |
| `SpendAdmission.RolloverAnswered` | src/baobab/b2b/spend-reservation-commands.ts:346-392 | A rollover is refused for capacity exactly when a budget neither holds the amount now nor has room for it once a stale hold of its period is returned |
| `SpendAnswers.EveryAnswer` | src/baobab/b2b/spend-reservation-commands.ts:163-392 | In every reachable state each of the six commands answers as its columns say: malformed arguments, a used key, then member, rival reservations, budgets that bind and their rows, version, bindings and holds in this order, with the one reason that comes first |
| `SpendAnswers.SubmitterRefused` | src/baobab/b2b/spend-reservation-commands.ts:414-427 | A submission is refused as BUYER_NOT_AUTHORISED exactly when its membership is unknown, of another Organisation or tenant, not ACTIVE, not begun or over |
| `SpendAnswers.ResubmitterRefused` | src/baobab/b2b/spend-reservation-commands.ts:177-203 | A resubmission that passes its own checks is refused as BUYER_NOT_AUTHORISED exactly for the same |
| `SpendAnswers.BudgetsRead` | src/baobab/b2b/spend-reservation-commands.ts:609-651 | The budgets selected are those that run now for the purchase's tenant, Organisation, Market and currency and for its membership or agreement; none for the membership and two of one kind are refused, each with its reason |
| `SpendRecords.EveryEntry` | src/baobab/b2b/spend-reservation-commands.ts:465-542 | In every reachable state an applied command writes exactly its ledger entries, with kind, reservation, budget, revision, period, amount, reason, key and actor of each: a returned hold names its reason, a reduced amount, a passed period and a revised budget told apart |
| `SpendRecords.EveryRow` | src/baobab/b2b/spend-reservation-commands.ts:414-459 | An applied command leaves exactly these reservation rows, its one record and, for a composed commit, its one mutation |
| `SpendDuality.CommitOrRollover` | src/baobab/b2b/spend-reservation-commands.ts:278-292 | For a live reservation and a commit that names it correctly, the commit answers ROLLOVER_REQUIRED exactly when a rollover would move a hold, and applies otherwise |
| `SpendDuality.CommitOrRolloverAnswers` | src/baobab/b2b/spend-reservation-commands.ts:357-389 | At the level of answers: of a commit and a rollover exactly one has something to do |
| `SpendDuality.RolloverUnblocksCommit` | src/baobab/b2b/spend-reservation-commands.ts:376-388 | After an applied rollover a commit with the new hold revision applies, at any later instant while the reservation lives and the same budgets apply in the same periods |
| `SpendDuality.MovesUnlessReady` | src/baobab/b2b/spend-reservation-commands.ts:765-771 | A rollover has something to release or reserve exactly when some applicable budget lacks the full current hold or a stray hold exists |
| `SpendHistory.HoldRevisionTells` | src/baobab/b2b/spend-reservation-commands.ts:376-388 | Over any further run a closed reservation and its holds never change, and an ACTIVE reservation's hold revision never falls and is unchanged only if all its holds are |
| `SpendHistory.CommitConvertsThoseHolds` | src/baobab/b2b/spend-reservation-commands.ts:270-277 | A commit applied with a hold revision converts exactly the holds that existed when that revision was current |
| `SpendHistory.RetriesAreInvisible` | src/baobab/b2b/spend-reservation-commands.ts:699-715 | A run ends where the run of its applied commands alone ends, and among those no key occurs twice |
| `SpendHistory.RepeatsAreReplayed` | src/baobab/b2b/spend-reservation-commands.ts:704-715 | After a command was applied, and whatever ran since, its repeat answers the first result, another request under its key conflicts, malformed arguments throw, and no table changes |
| `SpendHistory.RunRecords` | src/baobab/b2b/spend-reservation-commands.ts:716-743 | A command that is not applied leaves every table as it was; an applied one adds exactly its record |
| `SpendHistory.LedgerIsAppendOnly` | src/modules/b2b/migrations/Migration20261022150000.ts:261-263 | Entries are never rewritten, and every new entry belongs to a command applied since |
| `SpendHistory.MutationsWrittenOnce` | src/baobab/b2b/spend-reservation-commands.ts:239-245 | The composed mutation of a commit is written exactly once if that commit was applied, and never otherwise |
| `LockOrder.OrderPreventsDeadlock` | src/baobab/b2b/spend-reservation-commands.ts:118-125 | Any number of transactions that take locks in one global order never form a ring of waits |
| `LockOrder.DeadlockIsCrossing` | src/baobab/b2b/spend-reservation-commands.ts:118-125 | Two transactions can come to wait for each other exactly when, having taken nothing in common, each next asks for a lock the other has |
| `SpendWrites.WritesAreWritten` | src/baobab/b2b/spend-reservation-commands.ts:465-486 | An applied command wrote exactly the listed entries, in their order |
| `SpendWrites.GuardsDecide` | src/baobab/b2b/spend-reservation-commands.ts:177-218 | A command whose guards do not all pass is refused before its first entry; otherwise it ends as its entries do, with the refusal of the first that the trigger refuses |
| `SpendLocks.OnlyAskedRowsMove` | src/modules/b2b/migrations/Migration20261022150000.ts:281-318 | A command moves no balance row it has not asked for, applied or refused |
| `SpendLocks.BudgetsInOrder` | src/baobab/b2b/spend-reservation-commands.ts:472-485 | Every command writes its entries in non-decreasing budget order |
| `SpendLocks.LocksInOrder` | src/modules/b2b/migrations/Migration20261022150000.ts:281-328 | What a command asks for before it ends (nothing if malformed, its key, an earlier reservation if found, rows up to a refusal) is in the global order exactly when it does not come to reserve anew, in a budget's current period, what it holds there for a later one |
| `SpendReach.AsksNowIff` | src/baobab/b2b/spend-reservation-commands.ts:465-486 | In settled states a resubmission or rollover comes to ask for a budget's current row exactly when its key is new, its guards pass and every earlier budget it reserves in has room once its own hold there is returned |
| `SpendLocks.CommandsDoNotDeadlock` | src/baobab/b2b/spend-reservation-commands.ts:118-125 | Any set of concurrent commands with that property has no ring of waits on balance rows |
| `SpendLocks.OnlyReplacingMayDisorder` | src/baobab/b2b/spend-reservation-commands.ts:544-573 | Submit, commit, release and expire always have it; only resubmit and rollover may not |
| `SpendCrossing.CommandsDeadlockIff` | src/baobab/b2b/spend-reservation-commands.ts:461-486 | Two commands of one settled state, of whatever kind and at whatever clocks, can deadlock exactly when their keys are new and different, their guards pass, both come as far as some budget in which each moves a live hold out of the period the other moves one into, and they lock no common row of an earlier budget |
| `SpendCrossing.RefusedNeverDeadlocks` | src/baobab/b2b/spend-reservation-commands.ts:586-600 | A command with malformed arguments or a used key, or whose guard refuses it, deadlocks with no other |
| `SpendCrossing.OnePeriodNeverDeadlocks` | src/baobab/b2b/spend-reservation-commands.ts:118-125 | Two commands for which every budget is in the same period never deadlock |
| `SpendDeadlock.OppositeRolloversDeadlock` | src/baobab/b2b/spend-reservation-commands.ts:353-375 | Two rollovers in one budget that pass their guards, each returning in the period the other reserves in, wait for each other |
| `SpendDeadlock.DeadlockReachable` | src/baobab/b2b/spend-reservation-commands.ts:118-125 | A run from empty tables reaches such a pair, of which each would apply alone: the budget order alone does not order balance rows |
| `SpendStore.SpendStore.InsertLedgerEntry` | src/modules/b2b/migrations/Migration20261022150000.ts:252-380 | One insert moves balance, hold and entry together as specified, or refuses and moves nothing |
| `SpendStore.SpendStore.JudgeEntry` | src/modules/b2b/migrations/Migration20261022150000.ts:266-328 | The trigger's checks give the specified rows or error |
| `SpendStore.SpendStore.JudgeTaking` | src/modules/b2b/migrations/Migration20261022150000.ts:329-349 | The RESERVE branch, including reuse of an emptied hold under a revised budget |
| `SpendStore.SpendStore.JudgeConverting` | src/modules/b2b/migrations/Migration20261022150000.ts:350-368 | The COMMIT branch |
| `SpendStore.SpendStore.WriteInPolicyOrder` | src/baobab/b2b/spend-reservation-commands.ts:465-486 | The loop over budgets writes what the plan without empty holds writes |
| `SpendStore.SpendStore.WriteCommits` | src/baobab/b2b/spend-reservation-commands.ts:293-310 | The commit loop writes one COMMIT per budget in order, stopping at the first refusal |
| `SpendStore.SpendStore.CheckHolds` | src/baobab/b2b/spend-reservation-commands.ts:284-292 | The commit guard loop answers whether every budget holds the amount now and nothing stray is held |
| `SpendStore.SpendStore.Submit` | src/baobab/b2b/spend-reservation-commands.ts:163-167 | The submission's tables and answer are the specified ones |
| `SpendStore.SpendStore.Resubmit` | src/baobab/b2b/spend-reservation-commands.ts:177-218 | The resubmission's tables and answer are the specified ones |
| `SpendStore.SpendStore.Commit` | src/baobab/b2b/spend-reservation-commands.ts:247-322 | The commit's tables and answer are the specified ones |
| `SpendStore.SpendStore.Close` | src/baobab/b2b/spend-reservation-commands.ts:544-573 | The release's or expiry's tables and answer are the specified ones |
| `SpendStore.SpendStore.Rollover` | src/baobab/b2b/spend-reservation-commands.ts:346-392 | The rollover's tables and answer are the specified ones |
| `SpendStore.SpendStore.RunCommand` | src/baobab/b2b/spend-reservation-commands.ts:672-745 | One transaction: replay, conflict, rollback of a refusal, record of an applied command |
| `SpendStore.EmptyHoldsDoNotMatter` | src/baobab/b2b/spend-reservation-commands.ts:519 | Budgets whose holds are all empty may stand in the loop or not |
| `PolicyMeaning.CommitmentAllowedIff` | src/baobab/b2b/buyer-operation-policy.ts:281-410 | A commitment is allowed exactly when one role assignment carries role, Market and Site grants, the one order limit and every budget cover the amount, and what exceeds the buyer's authority is released by a bound approval |
| `PolicyMeaning.ApprovalAllowedIff` | src/baobab/b2b/buyer-operation-policy.ts:525-557 | An approval decision is allowed exactly for somebody else's approval bound to this transaction, pending or re-evaluated by its approver, within the one approval limit |
| `PolicyMeaning.EscalationRestsOnApprover` | src/baobab/b2b/buyer-operation-policy.ts:487-516 | An allowed escalated commitment rests on another principal of the Organisation whose own evaluation implies an approval limit of at least the amount |
| `PolicyMeaning.BudgetsMean` | src/baobab/b2b/buyer-operation-policy.ts:421-485 | The budget check passes exactly when one MEMBERSHIP budget and at most one of each other kind cover what the purchase's own hold does not |
| `PolicyMeaning.SingleMeans` | src/baobab/b2b/buyer-operation-policy.ts:275-277 | `single` gives a record exactly when it is the only one that applies |
| `PolicyMeaning.RolesMean` | src/baobab/b2b/buyer-operation-policy.ts:329-339 | The role filters leave something exactly when a single assignment carries everything |
| `PolicyMeaning.SitesMean` | src/baobab/b2b/buyer-operation-policy.ts:313-327 | No Site is refused exactly when each is this Organisation's, ACTIVE, in this Market and supports its use |
| `PolicyVerdict.VerdictIs` | src/baobab/b2b/buyer-operation-policy.ts:281-557 | For every operation and all facts the decision is the one of the first check that fails, with operations, roles, grants, Sites, order numbers, limits, budgets, thresholds and approvals written out column by column and records selected by quantifiers |
| `PolicyVerdict.RulesAre` | src/baobab/b2b/buyer-operation-policy.ts:50-88 | Which roles each operation is open to, whether it needs a Market or a Site, and of what kind it is |
| `PolicyApprovals.ReleasedByItsApproval` | src/baobab/b2b/buyer-operation-policy.ts:487-523 | An allowed commitment over the order limit or a threshold rests on an APPROVED approval whose digest, version, amount, currency and Market each equal the transaction's, by somebody else, under this policy revision |
| `PolicyApprovals.OtherTransactionRefused` | src/baobab/b2b/buyer-operation-policy.ts:506-511 | Where such a commitment is allowed, an approval that differs in any one of the five is refused as TRANSACTION_CHANGED, whatever its re-evaluation says |
| `PolicyApprovals.ApprovalDecides` | src/baobab/b2b/buyer-operation-policy.ts:387-410 | Under any other approval and re-evaluation the same commitment comes to exactly what these say, and to APPROVAL_REQUIRED without an APPROVED one |
| `PolicyApprovals.DecidedForItsTransaction` | src/baobab/b2b/buyer-operation-policy.ts:525-540 | An approval that may be decided equals the transaction in the same five columns and is somebody else's |
| `PolicyApprovals.OtherTransactionUndecided` | src/baobab/b2b/buyer-operation-policy.ts:534-536 | Deciding an approval that differs in any one of them is refused as TRANSACTION_CHANGED |
| `PolicyFailsClosed.FailsClosed` | src/baobab/b2b/buyer-operation-policy.ts:281-344 | With any set of sources unavailable the evaluator answers as before or UNAVAILABLE, for every operation and all facts |
| `PolicyOrderFree.OrderIsIrrelevant` | src/baobab/b2b/buyer-operation-policy.ts:281-344 | The decision is the same for every order of every record list, given unique Site ids and hold keys |
| `PolicyOrderFree.SiteUseOrder` | src/baobab/b2b/buyer-operation-policy.ts:318-327 | The order in which an operation names its Sites does not change whether it is allowed |
| `PolicySiteOrder.SiteUseOrderMatters` | src/baobab/b2b/buyer-operation-policy.ts:281-327 | For every operation and all facts, the decision is the same for every order of the named Sites unless these are looked up and some are absent or foreign while others are the Organisation's own but not usable here |
| `PolicySiteOrder.SiteUseOrderShows` | src/baobab/b2b/buyer-operation-policy.ts:320-326 | An order for the same two Sites is refused with BUYER_NOT_AUTHORISED in one order and with SITE_NOT_PERMITTED in the other |
| `PolicyLedger.PolicyForeseesSubmission` | src/baobab/b2b/buyer-operation-policy.ts:421-485 | With facts loaded from the ledger, aligned periods and no prior reservation, the budget check passes exactly when a submission meets no budget refusal, and otherwise names the same reason |
| `PolicyLedger.BudgetsAgree` | src/baobab/b2b/spend-reservation-commands.ts:609-651 | The policy's budget selection and arithmetic equal the ledger's, with the purchase's own current hold credited once |
| `PolicyLedger.PolicyOfLiveReservation` | src/baobab/b2b/buyer-operation-policy.ts:465-483 | With the purchase's own reservation the check passes exactly when each budget's current hold or fresh capacity covers the amount |
| `PolicyLedger.PassingMayRollOver` | src/baobab/b2b/spend-reservation-commands.ts:357-375 | Passing implies that a rollover applies; a rollover that is not refused for capacity though the check fails returns a hold of a superseded revision |
| `PolicyLedger.AlignedFact` | src/baobab/b2b/buyer-operation-policy-source.ts:164-201 | An aligned budget's fact leaves exactly what the ledger has available this period |
| `PolicyLoading.BudgetLoads` | src/baobab/b2b/buyer-operation-policy-source.ts:164-201 | A budget is loaded with exactly the columns of its row and of the one balance row covering the instant, or is unreadable for exactly its limit, its revision, an empty period, two covering rows or an amount that cannot be read |
| `PolicyLoading.BudgetsLoad` | src/baobab/b2b/buyer-operation-policy-source.ts:304-311 | The budgets of an Organisation are listed once each, or one unreadable row makes all of them unavailable |
| `PolicyLoading.ReservationLoads` | src/baobab/b2b/buyer-operation-policy-source.ts:315-345 | A reservation is loaded with its binding and each of its holds |
| `PolicyPeriods.SteadyRunsForesee` | src/baobab/b2b/buyer-operation-policy-source.ts:164-201 | In every state reached by runs whose edits keep time zones and effective intervals, the policy foresees what becomes of a submission |
| `PolicyPeriods.SteadyRunsAlign` | src/modules/b2b/migrations/Migration20261022150000.ts:302-318 | Such runs keep every stored balance period equal to a period of its budget |
| `PolicyDivergence.FactLeaves` | src/baobab/b2b/buyer-operation-policy-source.ts:164-201 | What a budget's fact leaves is what the ledger has available plus what the current row counts less what the row covering the instant counts, whether or not they are one row |
| `PolicyDivergence.PolicyAnswers` | src/baobab/b2b/buyer-operation-policy.ts:421-485 | Whatever the stored periods, the check of a new purchase selects the ledger's budgets and passes exactly when each one's limit less its covering row has the amount |
| `PolicyDivergence.ForeseesIff` | src/baobab/b2b/spend-reservation-commands.ts:394-411 | The policy foresees a submission exactly when covering rows and current rows both cover its amount or both do not |
| `PolicyDivergence.ForeseesEveryIff` | src/baobab/b2b/buyer-operation-policy.ts:465-483 | It foresees the purchase for every amount exactly when the tightest of its budgets leaves the same, not counting below nothing, by covering rows as by current rows |
| `PolicyDivergence.SameCountsSameRoom` | src/baobab/b2b/buyer-operation-policy.ts:465-483 | Counting alike in each applicable budget is enough for that |
| `PolicyDivergence.OneBudgetRoom` | src/baobab/b2b/buyer-operation-policy.ts:465-483 | With one budget that means that both count the same, unless both counts exhaust the limit |
| `PolicyDivergence.UnreadableIff` | src/baobab/b2b/buyer-operation-policy-source.ts:164-182 | In reachable states the check is UNAVAILABLE exactly when a budget of the Organisation has an amount of more than 31 digits, an empty period or two rows covering the instant |
| `PolicyOwnHold.OwnPolicyAnswers` | src/baobab/b2b/buyer-operation-policy.ts:421-485 | Whatever the stored periods, a purchase with its own live reservation passes exactly when in each applicable budget the covering row holds all of it at the budget's revision or leaves room for it |
| `PolicyOwnHold.OwnForeseesIff` | src/baobab/b2b/spend-reservation-commands.ts:346-392 | Passing means that its rollover applies, and refusal that it does not, exactly when covering rows cover it just if current rows can be renewed; the rollover's only refusal is the spend limit |
| `PolicyOwnHold.CountedAlikeRenews` | src/baobab/b2b/buyer-operation-policy.ts:465-483 | Where both count and credit each budget alike, a passing purchase can be rolled over |
| `PolicyExamples.EditedZoneDisagrees` | src/baobab/b2b/buyer-operation-policy-source.ts:178-182 | A run from empty tables with one time zone edit, under one calendar, and facts loaded from its last state, for which the policy refuses what the ledger admits |
| `PolicyExamples.ExtendedTermDisagrees` | src/modules/b2b/migrations/Migration20261022150000.ts:308-318 | A run with one extension of an agreement budget's term, after which the policy allows what the ledger refuses: the row of the term keeps the end it was inserted with |
| `Numerals.MinorUnitsReadNumerals` | src/baobab/b2b/buyer-operation-policy-source.ts:138-145 | Exactly canonical integers of at most 31 digits are read, each as its number, and "-0" as zero |
| `Numerals.StoredAmountsRead` | src/baobab/b2b/buyer-operation-policy-source.ts:153-157 | A stored amount is read back exactly when it is not negative and has at most 31 digits |
| `PolicyLoading.MoneyRead` | src/baobab/b2b/buyer-operation-policy-source.ts:138-145 | Which forms of money are read as which amount, below 10 to the 31st power in magnitude, and which are malformed |
| `OutboxProtocol.OutboxSafety` | scripts/dev11_rabbit_dispatcher.py:96-138 | For any number of workers, crashes, lost confirms and lease expiries: a PUBLISHED row's event is in the broker's log, each claim is published at most once and persisted no more often, so a row never has more copies than attempts, and a RETRY row has attempts left |
| `OutboxProtocol.OnlyTheHolderSettles` | scripts/dev11_rabbit_dispatcher.py:119-138 | Only the one worker holding the current attempt under an unexpired lease changes a row by settling, and then nobody may reclaim it; any other settlement changes no row |
| `OutboxProtocol.RunAdvances` | scripts/dev11_rabbit_dispatcher.py:96-138 | Attempts never fall, and PUBLISHED and DEAD_LETTER rows are never claimed or settled again |
| `OutboxProtocol.NextKeeps` | scripts/dev11_rabbit_dispatcher.py:171-208 | Every step of every worker, the broker and the environment keeps the protocol's invariants |
| `OutboxProtocol.LateFailuresDeadLetter` | scripts/dev11_rabbit_dispatcher.py:197-201 | A settled failure dead-letters exactly at the eighth attempt or later or for an unsendable event; otherwise it is retried after a doubled delay |
| `OutboxProtocol.CrashesPassAnyBound` | scripts/dev11_rabbit_dispatcher.py:104-111 | Crashes alone take a row past any number of attempts: only settled failures are bounded |
| `OutboxProtocol.DeadLettersDeserved` | scripts/dev11_rabbit_dispatcher.py:188-262 | After any run only events that may be sent were published, a DEAD_LETTER row had eight attempts or an event that may not be sent, its error code is true of it, and no lease runs for more than a minute |
| `OutboxProtocol.NewEventPublished` | scripts/dev11_rabbit_dispatcher.py:96-138 | From every reachable state a new event can be inserted, published once and settled, touching no other row |
| `OutboxProtocol.DeletedStays` | scripts/dev11_rabbit_dispatcher.py:96-138 | Over any further run a deleted row is never claimed or settled, by whatever worker holds it |
| `Outbox.SettleOrReclaim` | scripts/dev11_rabbit_dispatcher.py:96-138 | At no instant may a row be both settled by its holder and reclaimed by another, and in the instant a lease ends it may be neither |
| `Outbox.DelayDoubles` | scripts/dev11_rabbit_dispatcher.py:201 | The delay doubles from 1 to 256 seconds, so the cap of 300 never binds |
| `OutboxDispatcher.DispatchDrains` | scripts/dev11_rabbit_dispatcher.py:289-305 | With a confirming broker and lasting leases, more turns than rows that may become due end with nothing due; turn by turn each due row was published once or, exactly if its envelope cannot be sent, became a DEAD_LETTER, and no other row was touched |
| `OutboxDispatcher.TurnHandles` | scripts/dev11_rabbit_dispatcher.py:236-262 | One such turn takes one due row to its next attempt and publishes it, or dead-letters it if its envelope is invalid or too large, or nothing is due |
| `OutboxRefinement.TurnEnds` | scripts/dev11_rabbit_dispatcher.py:171-262 | For every table, selection and reply a turn takes the waiting row that is due longest, or none, and leaves its row PUBLISHED, RETRY, DEAD_LETTER or still leased exactly by envelope, reply, attempt and lease, with error code, delay and broker log |
| `OutboxRefinement.PublishedIfConfirmed` | scripts/dev11_rabbit_dispatcher.py:246-257 | A turn ends a row PUBLISHED only if its event may be sent, the broker confirmed it and its claim is in the broker's log |
| `OutboxRefinement.TurnIsRun` | scripts/dev11_rabbit_dispatcher.py:236-262 | Every turn is a run of the protocol's steps: claim, send or refuse, persist, confirm or lose the confirm, settle |
| `OutboxRefinement.DispatchIsRun` | scripts/dev11_rabbit_dispatcher.py:289-305 | So is every dispatch, whatever the broker replies and wherever it stops |
| `OutboxRefinement.DispatchSafety` | scripts/dev11_rabbit_dispatcher.py:289-305 | After any run of workers and crashes and any dispatch of its table, a PUBLISHED row's event is in the broker's log, no claim is there twice, nor a row more often than it was attempted, and a RETRY row has attempts left |
| `OutboxRefinement.SettlementSays` | scripts/dev11_rabbit_dispatcher.py:188-208 | A settlement refuses a cause without an approved code, changes nothing without the fence, and otherwise leaves exactly this row |
| `OutboxRefinement.TallyCounts` | scripts/dev11_rabbit_dispatcher.py:298-301 | The report counts how often each outcome occurred |
| `OutboxDispatcher.Dispatcher.ClaimNext` | scripts/dev11_rabbit_dispatcher.py:171-185 | The claim takes the earliest due row and leases it to its next attempt; an unapproved lease is refused |
| `OutboxDispatcher.Dispatcher.Settle` | scripts/dev11_rabbit_dispatcher.py:188-208 | The settlement is fenced by attempt and lease; a lost fence changes nothing and is an error |
| `OutboxDispatcher.Dispatcher.One` | scripts/dev11_rabbit_dispatcher.py:236-262 | One claim, publication and settlement, for every reply of the broker |
| `OutboxDispatcher.Dispatcher.Dispatch` | scripts/dev11_rabbit_dispatcher.py:289-305 | The loop takes the specified turns, stops when nothing is due and counts every outcome |
| `Decimals.AmountsAcceptedIff` | src/baobab/b2b/commercial-lifecycle.ts:234-270 | A quotation's amounts are accepted exactly when, as numbers, every line total is quantity times unit price and the total is their sum, for any number of fractional digits |
| `Decimals.DecimalsMatch` | src/baobab/b2b/commercial-lifecycle.ts:85 | A decimal is what the pattern matches within 64 characters |
| `Decimals.PositiveMeans` | src/baobab/b2b/commercial-lifecycle.ts:123-127 | A digit other than zero anywhere in it is exactly what makes a decimal denote a positive number |
| `Decimals.ScaledDenotes` | src/baobab/b2b/commercial-lifecycle.ts:144-148 | `scaled` denotes the decimal's value, trailing zeros included |
| `Decimals.EqualDecimalIsEquality` | src/baobab/b2b/commercial-lifecycle.ts:149-150 | `equalDecimal` is equality of the numbers |
| `Decimals.SumStands` | src/baobab/b2b/commercial-lifecycle.ts:259-266 | The fold at the largest scale is the sum of the numbers |
| `Decimals.ProductStands` | src/baobab/b2b/commercial-lifecycle.ts:243-245 | Multiplying digits and adding scales is multiplying the numbers |
| `CanonicalJson.TextIdentifies` | src/baobab/b2b/commercial-lifecycle.ts:322-339 | Two values have one canonical text exactly when they are equal up to the order of object keys |
| `CanonicalJson.ParsePrints` | src/baobab/b2b/commercial-lifecycle.ts:322-339 | A parser recovers every printed value up to key order |
| `CanonicalJson.PrintReadsBack` | src/baobab/b2b/commercial-lifecycle.ts:323-337 | It does so inside any longer text whose rest does not begin with a digit, leaving that rest |
| `CanonicalJson.EscapeReads` | src/baobab/b2b/commercial-lifecycle.ts:324 | Every string of UTF-16 code units, lone surrogates and control characters included, is read back from its escaped form (section 7 of RFC 8259) |
| `CanonicalJson.NumberReads` | src/baobab/b2b/commercial-lifecycle.ts:325 | Every safe integer is read back from its text |
| `CanonicalJson.OrderOfKeysIsFree` | src/baobab/b2b/commercial-lifecycle.ts:327-335 | Listing an object's members in another order does not change what it means, hence not its text |
| `CanonicalTexts.TextIs` | src/baobab/b2b/commercial-lifecycle.ts:322-339 | The code units of the text of every printable value: literals, digits, escaped strings, items and members between their brackets with commas between them, members in code unit order of their keys |
| `CanonicalTexts.StringWritten` | src/baobab/b2b/commercial-lifecycle.ts:324 | Each unit of a string stands for itself, or for its short escape, or for four lower-case hexadecimal digits, pairs of surrogates excepted |
| `CommercialRuns.LifecycleSafety` | src/baobab/b2b/postgres-commercial-lifecycle.ts:228-269 | Over every run with a monotone clock an ISSUED quotation's RFQ is QUOTED, an RFQ has at most one ISSUED quotation, and each version equals the number of the resource's history rows |
| `CommercialRuns.RfqCommandApplies` | src/baobab/b2b/postgres-commercial-lifecycle.ts:234-269 | An RFQ command applies exactly when its transition is allowed, no ISSUED quotation stands in its way, and a quotation it cascades to does not run out between the command's clock reading and the write; it then moves the RFQ and that quotation only |
| `CommercialRuns.ChildCascades` | src/baobab/b2b/postgres-commercial-lifecycle.ts:251-264 | The program's transition of a cascaded quotation never refuses; only the guard's later clock may |
| `CommercialStraddle.CascadeRefused` | src/baobab/b2b/postgres-commercial-lifecycle.ts:246-269 | A run from empty tables with a monotone clock whose withdrawal is refused by the guard because the cascaded quotation's validity ends between the command's clock reading and the write; written at once it applies |
| `CommercialRuns.IssueMovesBoth` | src/baobab/b2b/postgres-commercial-lifecycle.ts:228-233 | An applied issue inserts the quotation as ISSUED and moves its RFQ to QUOTED, and nothing else |
| `CommercialContents.IssuedAsOffered` | src/baobab/b2b/commercial-lifecycle.ts:220-282 | An applied QUOTATION_ISSUE stores and answers exactly the offer's lines, total and validity under the RFQ's id and context, every line is for a variant and unit the RFQ asks for, and as numbers the total is the sum of quantity times unit price over the stored lines |
| `CommercialContents.CreatedAsAsked` | src/baobab/b2b/commercial-lifecycle.ts:163-199 | An applied RFQ_CREATE stores and answers exactly the lines and the context of its payload |
| `CommercialContents.QuotationsAddUp` | src/baobab/b2b/postgres-commercial-lifecycle.ts:228-233 | In every reachable state, whatever the clocks said, every quotation adds up so and belongs to an RFQ of its context that asked for its lines |
| `CommercialTerms.OutcomeIs` | src/baobab/b2b/postgres-commercial-lifecycle.ts:144-313 | In every reachable state under a clock that does not go back, each of the eleven commands leaves exactly these tables and answers exactly this resource or refusal: which status it moves to from which, which quotation it closes and how, what it stamps and records, and in which order it refuses |
| `CommercialRuns.ExecuteKeeps` | src/baobab/b2b/postgres-commercial-lifecycle.ts:144-313 | Every command keeps the lifecycle invariants |
| `CommercialHistory.QuoteCommandApplies` | src/baobab/b2b/commercial-lifecycle.ts:290-320 | A quotation command applies exactly when the quotation is ISSUED and its validity has ended (expiry) or has not ended by the write (otherwise) |
| `CommercialHistory.PlayAdvances` | src/modules/b2b/migrations/Migration20261029130000.ts:82-107 | Over every run terminal states absorb, content is immutable, versions never fall and history is append-only |
| `CommercialHistory.RepeatsAreReplayed` | src/baobab/b2b/postgres-commercial-lifecycle.ts:184-215 | A repeated request is authorised afresh and then answered with the first result, another request under its key conflicts whatever the shape of its payload, and neither changes anything; only a payload that has no canonical text is refused before |
| `CommercialHistory.OddPayloadAnswered` | src/baobab/b2b/postgres-commercial-lifecycle.ts:200-233 | In every reachable state a printable payload of another shape changes nothing and is refused, after the key, the resource, the authority and the RFQ's version and status, for its context or its shape |
| `CommercialHistory.ExecuteRecords` | src/baobab/b2b/postgres-commercial-lifecycle.ts:285-310 | A refused command changes no table |
| `CommercialStore.CommercialStore.ExecuteCommand` | src/baobab/b2b/postgres-commercial-lifecycle.ts:144-313 | One transaction with rollback: tables and answer are the specified ones |
| `CommercialStore.CommercialStore.CascadeTo` | src/baobab/b2b/postgres-commercial-lifecycle.ts:246-265 | The cascade loop closes the listed quotations in order, stopping at the first refusal |
| `CommercialStore.CommercialStore.UpdateRow` | src/baobab/b2b/postgres-commercial-lifecycle.ts:418-426 | An optimistic update of the version before, under the guard, stamped and recorded in the history |
| `CommercialStore.CommercialStore.InsertRow` | src/baobab/b2b/postgres-commercial-lifecycle.ts:395-417 | A guarded insert, or nothing |
| `CommercialStore.CommercialStore.IssueCommand` | src/baobab/b2b/postgres-commercial-lifecycle.ts:228-233 | Inserts the quotation, then moves its RFQ |
| `CommercialStore.CommercialStore.RfqCommand` | src/baobab/b2b/postgres-commercial-lifecycle.ts:234-269 | Cascades where needed, then moves the RFQ |
| `BuyerSnapshot.SnapshotCoherent` | src/baobab/b2b/buyer-authority.ts:277-369 | For any interleaving with writers, the relationship, membership and roles of an allowed context were all true at once in every state from the membership read to the earlier re-read |
| `BuyerSnapshot.TimeChecksLast` | src/baobab/b2b/buyer-authority.ts:372-399 | From the final clock reading until the context expires, within a minute of its start, every time-dependent check still passes |
| `SnapshotTerms.EvaluateIs` | src/baobab/b2b/buyer-authority.ts:231-405 | For any interleaving with writers a context is given exactly when assurance, the one relationship, its one membership, a role, both second reads, the clock and every expiry pass, column by column, and otherwise the first of them that fails gives the refusal; the context says what was read and ends with the first thing it rests on |
| `SnapshotTerms.InterimSessions` | src/baobab/auth/buyer-assurance.ts:139-145 | Under the interim policy a session is refused as insufficient exactly unless its issuer is the policy's and its non-empty class is accepted |
| `SnapshotTerms.ApprovedSessions` | src/baobab/auth/buyer-assurance.ts:99-138 | Under an approved policy it is not activated exactly outside the term, issuer or profiles, and then insufficient exactly for class, a missing method or an authentication that is unknown, in the future or too old |
| `SnapshotTerms.ContextStands` | src/baobab/b2b/buyer-authority.ts:372-399 | Until it expires, assurance, the membership's term and every attested instant still stand |
| `SnapshotTerms.RelationshipRevised` | src/modules/b2b/migrations/Migration20261022090000.ts:28-45 | An edit of a relationship is exactly one step of its revision, anything else none |
| `SnapshotTerms.MembershipRevised` | src/modules/b2b/migrations/Migration20261022090000.ts:49-72 | An edit of a membership is exactly one step of its revision; otherwise only an explicit single step is kept |
| `SnapshotTerms.RolesRevised` | src/modules/b2b/migrations/Migration20261022090000.ts:73-92 | A role write is exactly one step of the revision of each membership it concerns, and of no other |
| `BuyerSnapshot.MembershipStep` | src/modules/b2b/migrations/Migration20261022090000.ts:49-80 | A membership's revision never falls, and stays only if the membership and its roles stay |
| `BuyerSnapshot.OrganisationStep` | src/modules/b2b/migrations/Migration20261022090000.ts:28-45 | An Organisation's relationship revision never falls, and stays only if the relationship stays |
| `BuyerSnapshot.AssuranceLasts` | src/baobab/auth/buyer-assurance.ts:92-146 | Assurance that passed at one instant passes until the expiry it reported |

## Left out

- Connections, lock and statement timeouts, advisory-lock mechanics and SQL errors other than those the tables' own constraints raise; a command is one atomic step except where lock order is the subject.
- The body of a composed database mutation: it is an opaque write in the same transaction, recorded by its command's key.
- The formats of identifiers: keys, digests and currencies are checked as the commands check them, other regular expressions (reservation ids, principal and market ids, timestamps, purchase-order patterns beyond their test of a number) are not.
- Time-zone month truncation: the month of an instant is an arbitrary function, assumed only to contain its instant, and to divide time where stored periods are compared.
- The uniqueness of ACTIVE budgets per scope and the soft deletion of budgets and balances; the model allows ambiguous budgets, which the commands and the policy refuse.
- Reservation holds and balances are deleted by nothing in the model, as the guards promise; direct writes around the ledger trigger are not modelled.
- Locks other than command keys, one earlier reservation and balance rows: shared budget locks, hold rows (each belongs to one reservation), unique-index waits and the locks of policy edits.
- SpendDeadlock.DeadlockReachable: shows the ring of waits for two transactions that have taken their first three locks; the database's detection and abort are not modelled.
- SpendCrossing.CommandsDeadlockIff: for two commands; of more than two only the sufficient SpendLocks.CommandsDoNotDeadlock is stated.
- PolicyLedger.PolicyForeseesSubmission: requires that all budgets of the Organisation belong to one tenant, because the loader selects by Organisation and the ledger also by tenant, and that the budgets could be read; PolicyDivergence.UnreadableIff says when they cannot.
- PolicyLedger.PassingMayRollOver: one direction only, with what the other direction lacks: the policy does not credit a hold of a superseded revision.
- PolicyOrderFree.OrderIsIrrelevant: the list of Site uses is part of the request and is treated by PolicyOrderFree.SiteUseOrder and PolicySiteOrder.SiteUseOrderMatters.
- The loaders of roles, grants, Sites, spend limits, approval policies and purchase-order rules, which map rows to facts one by one; budgets and reservations are modelled.
- BuyerSnapshot.SnapshotCoherent: covers the reads of steps 7 to 9; verification of tokens and the answers of other systems are parameters, and hard deletion of memberships or Organisations with reuse of their ids is not modelled.
- Bodies, signatures, routing and tracing of published messages; whether an event may be sent is a property of its row, and the broker persists a publication at most once.
- Texts of RFQs and quotations (references, notes, dates, incoterms, payment terms) and the reading of resources; quotation lines keep what amounts, offers and identity need.
- CommercialHistory.OddPayloadAnswered: a payload that is no RFQ and no quotation is known by its canonical text and, if it reads so far, its context; which texts those are is not modelled.
- Retained authority of commercial commands: whether an authority grants a command, and still grants it at the end, are parameters.
- CommercialTerms.OutcomeIs: for clock readings that do not go back within or between commands, as the database's do; CommercialContents.QuotationsAddUp needs no clock.
- OutboxRefinement.DispatchIsRun: for clock readings that do not go back; one dispatcher at a time is a run of the protocol, in which any number of workers may interleave.
- CanonicalJson.TextIdentifies: values are null, booleans, strings, safe integers, arrays and plain objects; minus zero is zero, and sparse arrays and objects with a class of their own are not modelled.
- Token verification, key sets, OAuth providers, middleware, catalogue, search and store-credit code: plumbing, or case tables that one branch explains.

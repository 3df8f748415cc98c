# Teardrop: a model of its money, commitment and agent-run logic

Teardrop sells agent runs for credit, lets agents pay other agents, pays tool authors, publishes
committed predictions with scores, and drives language-model runs through a planner and a tool
executor. This project models the parts of that system where a mistake moves money, loses a
commitment or never ends, and proves what the code promises about them.

Each database transaction is one atomic step. A state is a value (`Db`, `State`, `Book`); every
transaction is a function on it, and a run is any sequence of steps in any order, with any clock
values: timestamps are never assumed to follow lock order. What the network, the chain, a clock or a
language model answers is an input of the step. Beside the functions stand classes whose methods
change their tables in place, statement by statement, as the services do; each method is proved to
end in the state the function gives.

| file | source | what it models |
|---|---|---|
| `Merkle.dfy` | `labeling/commitments.py` | RFC 6962 trees and paths, the RFC 9162 verifier loop |
| `Anchor.dfy`, `AnchorStore.dfy` | `labeling/anchor.py` | sealing batches, reading them back, submission and confirmation |
| `Ledger.dfy` | `billing/credit.py`, `billing/context.py` | accounts, ledger, locked debits with sliding 24-hour caps, top-ups |
| `Delegation.dfy` | `billing/delegation.py` | held payments to other agents: delivery, adjustment, refund, treasury cap |
| `Settlement.dfy`, `Leases.dfy` | `billing/settlement.py` | the leased retry queue of failed settlements, re-arming, and when a stale claim can be written again |
| `Billing.dfy`, `Balances.dfy`, `BillingStore.dfy` | the three above | all of them over one shared ledger, what a run pays into each balance, and the services' methods |
| `Withdrawals.dfy`, `Payouts.dfy`, `WithdrawalResets.dfy`, `WithdrawalStore.dfy` | `marketplace/withdrawals.py`, `marketplace/worker.py` | author withdrawals around an external transfer with an uncertain outcome |
| `PlanDag.dfy` | `agent/planner_ir.py` | validation of staged plans |
| `Executor.dfy` | `agent/node_executor.py` | acceptance, caps, deduplication and accounting of tool calls |
| `AgentGraph.dfy` | `agent/graph.py`, `agent/nodes.py`, `agent/node_executor.py` | the planner-executor loop and the stages of a plan |
| `Onchain.dfy`, `Scorecards.dfy` | `labeling/onchain.py`, `labeling/scorecards.py` | rounds, buckets, Brier scores, coverage and imputation |
| `Pricing.dfy`, `PriceString.dfy` | `billing/pricing.py`, `billing/models.py` | token cost of a run, printed prices |
| `Common.dfy` | | shared datatypes, totals over tables, arithmetic |

`Common.dfy` sums a column over a table by removing one row at a time; every window property is such a
sum.

## Where the code and its promises part

- **Resetting a withdrawal.** The code and `README.md:50` ask the operator only to establish that no
  transfer for the withdrawal took or can take effect. That is not enough: a `process` call that has
  seen its own transfer reverted but has not yet written its release can, after the reset and a new
  claim, release the earnings the new transfer pays for. `WithdrawalResets.ChainStateAloneDoesNotJustifyReset`
  is such a run. `WithdrawalResets.ResetIsSafeIff` gives the exact condition, for every state that
  meets the invariant of all runs: a reset is safe in every continuation if and only if no transfer for the
  withdrawal took or can take effect, no call for it is about to send one, and no call for it still
  has a release or a hash to write. `Payouts.NoEarningPaidTwice` holds for all runs whose resets meet it.
- **Leases.** That a settlement is debited exactly once needs no assumption about clocks. That a stale
  worker's writes are ignored does. A lease is the retry time of its row, and three writes set that
  time from a clock: a failure write, an operator's reset and a re-arming. Such a write is timely if it
  sets a retry time past the row's latest claim; a failure write that is not behind its own claim and a
  reset or re-arming after the latest claim are (`Billing.LeasesAlwaysFence`). At every point of a run,
  every later lease of every charge will be greater than those before it, however the queue goes on
  under causal clocks, if and only if each of these writes was timely: over whole runs
  `Billing.LeasesStayOrderedIff`, for one write `Leases.FailureStaysOrderedIff`,
  `Leases.ResetStaysOrderedIff` and `Leases.RearmStaysOrderedIff`. A run
  with an untimely write may still happen to end in order; what it loses is the guarantee.
  After an untimely write, and with causal clocks from there on, a stale worker can come to write again
  if and only if the row is retrying at exactly its lease, or its lease lies at least a gap beyond the
  retry time (`Leases.RevivableIff`; `Leases.FailureRevivesIff`, `Leases.ResetRevivesIff` and
  `Leases.RearmRevivesIff` say it of the three writes). The gap is the backoff of the next failure if
  one is left; else two seconds and a microsecond, for a last failure, a reset and a first failure;
  and the lease time of 300 seconds where no failure ever retries. In
  `Settlement.SkewedClockRevivesStaleClaim` the write itself lands on the stale lease, in
  `Leases.SkewedClockRevivesLater` a later claim hands it out again. The retry backoff is not a lease
  and may lie before the previous lease.
- **Plans.** While there is a plan the iteration cap is not consulted. For a run that starts without a
  plan, the cap bounds the executor visits whatever the model answers if and only if compiler mode is
  off (`AgentGraph.CapHoldsIff`): in compiler mode an answer may replace the plan at any turn
  (`AgentGraph.ReplanningIsUnbounded`). What does bound every run is the cap, or the stages left of
  the plan at hand, plus the stages of each plan brought on the way (`AgentGraph.RunIsBounded`).
- **Missed rounds.** The docstring at `labeling/scorecards.py:14-15` says imputation keeps selective submission from
  improving a ranking. After the fact it does improve it, exactly when the forecast left out would have
  scored worse than uniform (`Scorecards.MissingHelpsIff`): in `Scorecards.LeavingOutABadForecastHelps` a
  subject scores 1/4 instead of 1 by leaving a wrong forecast out. In expectation an honest forecast never
  scores worse than the imputed baseline (`Onchain.HonestyBeatsBaseline`), which is the sense in which the
  promise holds.

## Model

| member | source | states |
|---|---|---|
| Merkle.SplitIsLargestPowerOfTwo | labeling/commitments.py:119-121 | the bit-length split point is the largest power of two below the size |
| Merkle.RootIsLevelByLevel | labeling/commitments.py:115-131 | the recursive root is the one got by hashing neighbours level by level, an odd one out carried up |
| Merkle.VerifyPath | labeling/commitments.py:146-166 | the two-counter shifting loop accepts exactly what reading the path element by element accepts, including too long, too short and malformed paths |
| Merkle.PathReachesRoot | labeling/commitments.py:134-166 | walking a leaf's recursive audit path from its counters ends at the recursive root with the size counter at zero |
| Merkle.WalkIsInjective | labeling/commitments.py:115-166 | with a collision-free node hash, two walks from the same counters that end alike started from the same leaf and path |
| Merkle.VerifierAcceptsExactlyAuditPaths | labeling/commitments.py:115-166 | for every non-empty leaf list, any index, leaf text and path: the verifier accepts against the root if and only if the index is valid, the leaf is that leaf and the path its audit path |
| Anchor.FirstIsUnique | labeling/anchor.py:125-126 | the first n of a set of leaves in sort order are one determined sequence |
| Anchor.PrefixesLoseNothing | labeling/anchor.py:63-127 | sorting and truncating per-source prefixes gives the first n of all pending leaves |
| Anchor.RunKeepsInv | labeling/anchor.py:115-224 | over every run anchored rows sit at their index of their batch, roots are those of the sealed order, and a confirmed batch has a finalized transaction with its root |
| Anchor.BatchesPartitionLeaves | labeling/anchor.py:115-142 | after any run no leaf is in two batches, and the indices of a batch are exactly those below its size, each once |
| Anchor.BatchReadsBack | labeling/anchor.py:145-156 | the rows of a sealed batch are complete and carry the sealed leaves |
| Anchor.ReadBackIsUnique | labeling/anchor.py:145-156 | what a batch reads back as is determined by the table |
| Anchor.AnchoredLeafVerifies | labeling/anchor.py:115-156 | after any run, for any anchored row: a leaf and path verify at its index against the stored root if and only if they are the row's leaf and its audit path in what the batch reads back as |
| Anchor.RunFreezes | labeling/anchor.py:179-224 | over every further run a batch's root, size and members stay, a confirmed batch keeps its block and transaction, and no committed leaf is lost or changed |
| AnchorStore.Sort | labeling/anchor.py:125 | the items come out in strict order of time, source and id, none lost or added |
| AnchorStore.Anchors.PendingRows | labeling/anchor.py:63-76 | the first unanchored committed rows of one source, in order, up to the limit |
| AnchorStore.Anchors.Assign | labeling/anchor.py:78-90 | pending rows get batch and index, anchored rows stay, and the count is that of the rows that were there and pending |
| AnchorStore.Anchors.SealBatch | labeling/anchor.py:115-142 | seals the globally first pending leaves in one step, each at its index under their root; nothing pending and a taken batch id leave everything unchanged; the assignment never falls short |
| AnchorStore.Anchors.BatchLeaves | labeling/anchor.py:145-156 | succeeds if and only if the rows of the batch have exactly the indices below the count, and then returns each leaf at its row's index |
| AnchorStore.Anchors.ReadSealed | labeling/anchor.py:145-156 | a sealed batch reads back without error in its sealed order, and the tree over it has the stored root |
| AnchorStore.Anchors.ClaimUnsentBatch | labeling/anchor.py:159-176 | the oldest unsent batch that is not locked and whose lease has run out is leased, none if there is none |
| AnchorStore.Anchors.RecordTx | labeling/anchor.py:179-189 | records a transaction only for a batch without one |
| AnchorStore.Anchors.ResetTx | labeling/anchor.py:200-210 | forgets a transaction only while it is the recorded one and unconfirmed |
| AnchorStore.Anchors.Confirm | labeling/anchor.py:279-310 | confirms if and only if the transaction is final and carries the root; resets on a missing transaction after the lease or on a mismatch; otherwise changes nothing |
| Ledger.PostKeepsBook | billing/credit.py:231-262 | a ledger row with its balance update keeps balances equal to the sum of rows, never negative, and links single |
| Ledger.DebitKeepsWindows | billing/credit.py:186-230 | while a limit of at most cap is in force, a permitted debit raises no 24-hour window of unreversed debits above the cap or above what it held, also when its timestamp is earlier than existing rows |
| Ledger.TopupKeepsWindows | billing/context.py:38-77 | a credit or reversal never raises a window's sum |
| Ledger.SpendSnoc | billing/context.py:38-77 | exactly what one more row does to a spend: its own amount more if it is a matching debit, the amount of a still counted debit less if it reverses one |
| Ledger.ChosenDebitsFit | billing/context.py:38-77 | with windows within a cap, no choice of unreversed debits of the org made within 24 hours of each other adds up to more than the cap |
| Ledger.ConfiguredIsInForce | billing/context.py:133-167 | a limit is in force as it was set, and a deleted principal row binds no more |
| BillingStore.Store.DebitCreditLocked | billing/credit.py:177-262 | succeeds if and only if the account exists, is not paused and covers the amount, and the org's or machine limit and the principal's row allow it; then balance and one ledger row move together, else nothing does |
| BillingStore.Store.DebitCredit | billing/credit.py:264-295 | amounts that are not positive succeed without a debit; otherwise success is exactly the locked checks |
| BillingStore.Store.AdminTopUp | billing/credit.py:367-424 | a positive amount raises the balance by exactly that amount, with one row, once per payment reference; a replay for the same org and amount answers with the current balance, any other use of the reference and a refused row are errors |
| BillingStore.Store.UpdateSpendingConfig | billing/context.py:96-167 | what is given of limit and pause flag is set; a negative limit and a missing account change nothing and are told apart; the answer shows the limit in force, or zero where a mere reading finds no account |
| BillingStore.Store.FundDelegation | billing/credit.py:297-365 | the debit and its refund row, both of the amount asked for, are written together or not at all; a repeated id succeeds exactly when its row is pending with the same amount |
| BillingStore.Store.MarkPossiblyDelivered | billing/delegation.py:175-265 | starts delivery if and only if the hold is pending and undelivered, the charge lies within it and fits the treasury window; the hold becomes the charge, and the balance gets back exactly the rest |
| BillingStore.Store.ConfirmDelivery | billing/delegation.py:365-426 | a possibly-delivered hold becomes confirmed and cancelled |
| BillingStore.Store.CompleteRefundLocked | billing/delegation.py:302-363 | the held amount is credited once, reversing the original debit |
| BillingStore.Store.FailDelivery | billing/delegation.py:428-498 | a possibly-delivered hold is failed and refunded in one step |
| BillingStore.Store.RequestRefund | billing/delegation.py:500-525 | only an undelivered pending hold moves to requested |
| BillingStore.Store.CancelRefund | billing/delegation.py:527-563 | a hold is cancelled only together with the confirmation of its delivery |
| BillingStore.Store.CompleteRefund | billing/delegation.py:565-608 | refunds a requested hold, and reports a refunded one as done |
| BillingStore.Store.ProcessRefundOutbox | billing/delegation.py:610-644 | the worker's pass over a snapshot, however stale, is the fold of its row steps, and it counts exactly the rows resolved by their step |
| Delegation.PossiblyDeliveredLeavesOnlyByResolution | billing/delegation.py:365-563 | a possibly-delivered hold changes only by its own confirm, cancel or fail, by its own org |
| Delegation.StaleSweepNeverRefundsDelivered | billing/delegation.py:610-644 | from any snapshot, the outbox worker leaves a possibly-delivered or confirmed hold as it is or confirms it |
| Delegation.OutboxDecides | billing/delegation.py:610-644 | a hold never handed to delivery is confirmed if its delegation completed at a cost, and otherwise refunded in full |
| Delegation.MarkKeepsOutflow | billing/delegation.py:211-261 | marking keeps every 24-hour window of delivery starts within the treasury cap |
| Delegation.CreditKeepsInv | billing/delegation.py:267-300 | a partial release or refund keeps debit minus credits equal to what is held |
| BillingStore.Store.EnqueueFailedSettlement | billing/settlement.py:149-204 | a failed charge of a positive amount is queued once |
| BillingStore.Store.ClaimDue | billing/settlement.py:207-240 | the earliest due rows that are not locked, at most twenty, are leased for 300 seconds and returned |
| BillingStore.Store.SettleClaimedCredit | billing/settlement.py:51-140 | only under the worker's own lease, in one step with the settled status: the org is debited the charge, and each allocation that earns something gets its author one row with its own tool, caller and cost |
| BillingStore.Store.RecordFailure | billing/settlement.py:274-313 | retry count, backoff or exhaustion are written only under the worker's own lease |
| BillingStore.Store.ProcessPendingSettlements | billing/settlement.py:241-315 | the worker's loop over its claims, with its count of settled rows |
| BillingStore.Store.ResetExhausted | billing/settlement.py:344-368 | only an exhausted charge that is not x402 is reset; the three answers are told apart |
| BillingStore.Store.RearmExhausted | billing/settlement.py:371-406 | re-queues exactly the oldest recent exhausted charges whose running total fits the cap |
| Settlement.SettledIsFinal | billing/settlement.py:51-140 | no transaction changes a settled charge |
| Settlement.PayoutsPayFor | billing/settlement.py:90-118 | the earnings rows of a charge match, one for one and in order, the allocations that are readable, accepted, of positive cost and for another org's tool |
| Settlement.SupersededWritesAreIgnored | billing/settlement.py:57-75 | with leases fenced, a superseded claim neither settles nor records a failure |
| Settlement.BackoffRevivesStaleClaimIff | billing/settlement.py:296-313 | whether the failure write itself lands on a stale lease: exactly when its retry time equals that lease, never when the clock is not behind the writer's own claim |
| Settlement.SkewedClockRevivesStaleClaim | billing/settlement.py:296-313 | a concrete queue and clock where it does |
| Settlement.UnfencedRowLosesOrder | billing/settlement.py:207-240 | an open row that can be claimed at or before its latest claim loses the order of its leases with its next claim |
| Leases.FailureStaysOrderedIff | billing/settlement.py:274-313 | after a failure write at any clock, the row's leases strictly increase in every causal continuation if and only if its retry time is past the row's latest claim |
| Leases.ResetStaysOrderedIff | billing/settlement.py:344-368 | after a reset, if and only if its clock is past the row's latest claim |
| Leases.RearmStaysOrderedIff | billing/settlement.py:371-406 | after a re-arming, for all rows it re-queues, if and only if its clock is past the latest claim of each |
| Leases.RevivableIff | billing/settlement.py:207-368 | for an open row in any state: some causal continuation lets a worker that holds it now write, if and only if a lease held is the retry time of the retrying row or lies at least the gap beyond it |
| Leases.FailureRevivesIff | billing/settlement.py:274-313 | after a failure write at any clock, exactly when a superseded worker can come to write again |
| Leases.ResetRevivesIff | billing/settlement.py:344-368 | the same after a reset at any clock |
| Leases.RearmRevivesIff | billing/settlement.py:371-406 | the same for each row of a re-arming at any clock |
| Leases.FencedNeverRevives | billing/settlement.py:51-75 | from a fenced state no causal continuation lets a superseded worker write |
| Leases.SkewedClockRevivesLater | billing/settlement.py:296-313 | a concrete queue and clock where the write lands on no lease and a stale worker can still write later |
| Settlement.WorkerDebitsWhatItReports | billing/settlement.py:241-315 | each row the worker counts is one more ledger debit, and no other is |
| Settlement.JobOutcome | billing/settlement.py:241-315 | a row the worker still holds is settled, left to its next claim when the lease has run out, or goes on with one retry more, exhausted at the last |
| Settlement.ElderRearmedToo | billing/settlement.py:371-396 | a candidate older than a re-armed one is re-armed too |
| Settlement.RearmStaysWithinCap | billing/settlement.py:371-396 | what is re-armed sums to at most the cap |
| Settlement.RearmIsMaximal | billing/settlement.py:371-396 | with the oldest candidate left out it would exceed the cap |
| Billing.RunKeepsInv | billing/settlement.py:51-140 | every interleaving of direct, delegation and settlement transactions over one ledger keeps all their invariants |
| Billing.LedgerIsConserved | billing/credit.py:231-262 | in every reachable state balances are top-ups minus debits and never negative, no debit is reversed twice, no payment credited twice |
| Billing.DelegationIsConserved | billing/delegation.py:211-363 | in every reachable state the one debit of a delegation minus its credits is what is held, zero once refunded; confirmed is cancelled; refunded is reversed |
| Billing.HoldHistory | billing/delegation.py:365-608 | from any point of any run on, funding is fixed, the amount is frozen once delivery started, and confirmation or refund is final |
| Billing.SettlementIsExactlyOnce | billing/settlement.py:51-140 | in every reachable state a settled charge has exactly one debit of its amount and exactly one earnings row for each allocation that earns something, with its author, tool, caller and cost; an unsettled one has none, under any clocks |
| Billing.AuthorsArePaidWhatIsOwed | marketplace/earnings.py:18-53 | in every reachable state each author has been paid from a charge the costs of its own allocations if it is settled, and nothing otherwise |
| Balances.UsedReferences | billing/credit.py:397-424 | in every reachable state a payment reference is used if and only if a step of the run credited a positive amount under it |
| Balances.BalanceIsWhatWasPaid | billing/credit.py:231-424 | in every reachable state a balance is the accepted top-ups of the run, each reference once, less accepted debits, settled charges and funded holds, plus what delegations gave back |
| Billing.SpendNeverExceedsLimit | billing/credit.py:186-230 | from any sound state and over any steps before each of which a limit of at most cap is in force, no 24-hour window of the org or limited principal rises above cap or above what it held |
| Billing.LimitStaysInForce | billing/context.py:133-167 | a limit once set is in force over every further run that neither reconfigures it beyond the cap nor deletes the principal's row |
| Billing.SpendIsCappedFrom | billing/credit.py:186-230 | from the point of a run at which a limit is in force, and while nobody reconfigures it, windows within the cap stay within it |
| Billing.OrgIsCapped | billing/credit.py:186-230 | an org given a limit before its first debit never spends more than it in any window of the rest of the run |
| Billing.OrdinaryOrgIsCapped | billing/credit.py:186-230 | for instance every org that did not sign up by machine, once topped up and given its limit |
| Billing.PrincipalIsCapped | billing/credit.py:206-230 | a principal given a limit row before its first debit never spends more than it in any window of the rest of the run |
| Billing.MachineOrgIsCapped | billing/credit.py:202-211 | an org that signed up by machine never spends more than the machine cap in any window, unless it is configured beyond it |
| Billing.PausedIsNotDebited | billing/credit.py:205-229 | over every run, while an org or a principal is paused no debit of it is written by any protocol |
| Billing.OutflowNeverExceedsCap | billing/delegation.py:211-261 | in every reachable state every 24-hour window of delivery starts sums to at most the treasury cap |
| Billing.LeasesAlwaysFence | billing/settlement.py:207-313 | with causal clocks leases strictly increase over every run and superseded claims stay fenced off |
| Billing.LeasesFenceIff | billing/settlement.py:207-406 | the fence holds at every point of a run if and only if each failure write, reset and re-arming sets a retry time past the latest claim |
| Billing.LeasesStayOrderedIff | billing/settlement.py:207-406 | at every point of a run the leases of each queued charge go on strictly increasing in every causal continuation, if and only if each failure write, reset and re-arming of the run was timely |
| Withdrawals.SelectFits | marketplace/withdrawals.py:162-174 | greedy selection takes distinct rows whose shares fit the amount |
| Withdrawals.SelectIsMaximal | marketplace/withdrawals.py:162-174 | a row left out does not fit what remains |
| Payouts.FinishKeepsInv | marketplace/withdrawals.py:238-300 | the last write of a call, guarded by the in-flight status, keeps the invariant, with the sweep's bookkeeping after it |
| Payouts.ReconcileKeepsInv | marketplace/worker.py:229-276 | so do the reconciler's guarded writes |
| Payouts.NoEarningPaidTwice | marketplace/withdrawals.py:94-443 | over every interleaving of claims, transfers, verdicts, final writes, crashes, sweeps, completions, reconciliations and allowed resets, no earning is covered by two effective transfers |
| Payouts.EveryRunPaysWhatItClaims | marketplace/withdrawals.py:94-325 | from empty tables: settled earnings are those held by in-flight or settled withdrawals, paid earnings stay held, a transfer is its claimed shares, at most the request and to the wallet requested, and a settled withdrawal has a hash |
| Payouts.SettledMeansPaid | marketplace/withdrawals.py:94-325 | over every run whose resets are allowed, a settled withdrawal that no operator completed by hand records the hash of an effective transfer of exactly the earnings it holds, to its wallet |
| WithdrawalResets.ResetIsSafeIff | marketplace/withdrawals.py:408-443 | a reset is safe in every continuation if and only if no transfer for the withdrawal took or can take effect and no call for it still has a release or a hash to write |
| WithdrawalResets.StaleWriterPaysTwice | marketplace/withdrawals.py:257-300 | a stale call whose transfer is dead can release what a later call claimed and paid for |
| WithdrawalResets.TransferPaysTwice | marketplace/withdrawals.py:176-236 | a transfer that took or can take effect pays for earnings that the reset makes available again |
| WithdrawalResets.UnsentCallPaysTwice | marketplace/withdrawals.py:176-236 | so does a call that has claimed and not sent yet |
| WithdrawalResets.ChainStateAloneDoesNotJustifyReset | marketplace/withdrawals.py:408-443 | a concrete run to a state where chain state alone would justify the reset and it is unsafe |
| WithdrawalStore.Service.QueryAvailable | marketplace/withdrawals.py:152-160 | all available earnings of the org, each once, oldest first |
| WithdrawalStore.Service.SelectEarnings | marketplace/withdrawals.py:162-174 | the loop computes the greedy selection and its total |
| WithdrawalStore.Service.ClaimWithdrawal | marketplace/withdrawals.py:94-143 | claims exactly the selected earnings for a pending withdrawal, fails it when nothing of value is available, raises otherwise |
| WithdrawalStore.Service.AttemptTransfer | marketplace/withdrawals.py:176-236 | the write that is due follows from the transfer's outcome and verdict; a returned hash is of a transfer of what the call claimed, to the row's wallet |
| WithdrawalStore.Service.SettleWithdrawal | marketplace/withdrawals.py:238-255 | settles, and records the hash, only while in flight |
| WithdrawalStore.Service.ReleaseWithdrawal | marketplace/withdrawals.py:257-282 | releases every earning of the withdrawal only while in flight |
| WithdrawalStore.Service.RecordInFlight | marketplace/withdrawals.py:284-300 | records the hash only while in flight, without an error otherwise |
| WithdrawalStore.Service.Process | marketplace/withdrawals.py:302-325 | a whole call: its final state is the run of its steps, which answer it gives, and a settled answer means an effective transfer of exactly what was selected, which is still held, under the hash the row records |
| WithdrawalStore.Service.CompleteWithdrawal | marketplace/withdrawals.py:342-372 | unknown, conflicting hash, or recorded; settles only what is in flight |
| WithdrawalStore.Service.ResetWithdrawal | marketplace/withdrawals.py:408-443 | only failed, exhausted and in-flight withdrawals; earnings are released only from in flight |
| WithdrawalStore.Service.RequestWithdrawal | marketplace/withdrawals.py:38-92 | each refusal under its condition, in the order of the checks; otherwise a new pending row |
| WithdrawalStore.Service.SweepRow | marketplace/worker.py:84-192 | a sweep is a run without resets, what it reports as processed is settled, and a candidate that is due is no longer pending after it |
| WithdrawalStore.Service.ReleaseReverted | marketplace/worker.py:229-276 | writes only while in flight under the same hash; failed or exhausted by the attempt count |
| WithdrawalStore.Service.ReconcileInFlight | marketplace/worker.py:279-368 | the pass over a snapshot counts exactly the withdrawals it takes out of flight |
| PlanDag.TopologicalIsAcyclic | agent/planner_ir.py:118-133 | a graph with a topological order has no cycle |
| PlanDag.NamesFineIff | agent/planner_ir.py:99-110 | no name fault is found if and only if every call has an id and a tool and no id is used twice |
| PlanDag.CollectCalls | agent/planner_ir.py:99-110 | collects all calls, or reports the first name fault of the plan in order |
| PlanDag.CheckDependencies | agent/planner_ir.py:113-116 | reports the first dependency that is no call of the plan, or none |
| PlanDag.Search.Dfs | agent/planner_ir.py:121-130 | terminates; on return the node is finished after all it depends on, on an error there is a real cycle |
| PlanDag.CheckAcyclic | agent/planner_ir.py:118-133 | accepts if and only if the graph is acyclic, with a topological order, else with a real cycle |
| PlanDag.ValidatePlanDag | agent/planner_ir.py:97-133 | accepts exactly the plans with non-empty unique ids, named tools, known dependencies and an acyclic graph; otherwise the first fault, names before dependencies before cycles |
| Executor.SelectCalls | agent/node_executor.py:322-432 | the loop accepts and suppresses exactly by the checks in their order, with each reason; every call is one or the other |
| Executor.AcceptedExactly | agent/node_executor.py:322-432 | read from the log alone: a call is kept exactly if its tool is bound, a custom one below the total, a platform one below its cap, with a new signature, no covered liquidation check and no address-only price; each other call has its reason |
| Executor.ExecuteLogs | agent/node_executor.py:530-576 | a batch logs its accepted calls in order, billable as their results say; a missing result is not billable |
| Executor.RecordAllAdds | agent/node_executor.py:530-576 | a batch adds the wallets its position reads cover and the cost of its delegations, and the name lists stay those of the log |
| Executor.ExecuteTools | agent/node_executor.py:322-576 | selection followed by the accounting of every result |
| Executor.AcceptedFit | agent/node_executor.py:343-392 | accepting a batch on top of the log keeps every cap and repeats no platform signature |
| Executor.RecordKeepsAccounts | agent/node_executor.py:530-576 | accounting for a result keeps every counter equal to what the log says |
| Executor.RunsStayWithinLimits | agent/node_executor.py:322-576 | over all batches of a run: no platform signature executes twice, no platform tool or the custom total exceeds its cap, and calls = billable + failed = log length = sum of per-tool counts |
| AgentGraph.PlanlessRunIsCapped | agent/graph.py:66-87 | whatever the model answers without a plan, the executor is visited at most as often as the cap still allows, at least once allowed, and the run ends within as many turns |
| AgentGraph.RunIsBounded | agent/graph.py:66-87 | whatever the model answers, visits are at most what the cap or the plan at hand still allows plus the stages of each plan brought on the way, and as many turns end the run |
| AgentGraph.ExecutesIff | agent/nodes.py:710-726 | a turn executes tools if and only if its message brings tool calls or a plan is active; otherwise the run ends |
| AgentGraph.MessageIsExecuted | agent/node_executor.py:244-633 | without an active plan a turn executes the calls of its message and leaves plan and stages alone |
| AgentGraph.BusyRunUsesItsBudget | agent/graph.py:66-87 | while every turn has something to execute, a run takes exactly as many visits as the cap or the plan at hand allows, and ends exactly then |
| AgentGraph.GraphStaysWithinLimits | agent/node_executor.py:322-576 | over every run of the graph, whatever plans and messages come: no platform signature executes twice, no cap is exceeded, the counters agree with the log |
| AgentGraph.ExecuteTakesStage | agent/node_executor.py:266-280 | a visit runs calls of the current stage only, all whose dependencies are marked; it fails with the plan as it was exactly when something ran and the batch timed out, else marks all that were taken up and moves on |
| AgentGraph.MarkedByStage | agent/node_executor.py:273-280 | a stage marks those of its calls, and only those, whose dependencies were all marked before it |
| AgentGraph.StageLogsItsTools | agent/node_executor.py:266-280 | each call a stage runs is one more row of the log, in order, for the tool the plan names |
| AgentGraph.PlanRunEnds | agent/node_executor.py:440-459 | a run of one plan ends within its remaining stages, no call runs twice, none before its dependencies are marked |
| AgentGraph.AcceptedPlanRuns | agent/nodes.py:710-726 | the same for a run whose first answer brings an accepted plan |
| AgentGraph.AcceptedPlanHasUniqueIds | agent/planner_ir.py:99-110 | an accepted plan has a non-empty id of its own for each call |
| AgentGraph.DependenciesOfRanAreEarlier | agent/node_executor.py:274-280 | a call that ran depends on earlier stages only, so one that depends on its own or a later stage never runs |
| AgentGraph.ReplanningIsUnbounded | agent/graph.py:73-87 | in compiler mode answers that each bring a new accepted plan keep the run going for any number of visits |
| AgentGraph.CapHoldsIff | agent/nodes.py:711-726 | without a plan at the start, the iteration cap bounds the visits for all answers if and only if compiler mode is off |
| AgentGraph.PlannerNode | agent/nodes.py:710-726 | next status and plan by the planner's rule; a provider error fails the run |
| AgentGraph.TakeStage | agent/node_executor.py:273-280 | exactly the stage's calls with all dependencies marked |
| AgentGraph.AdvanceStage | agent/node_executor.py:610-623 | taken ids are appended once and the index moves by one |
| AgentGraph.ToolExecutorNode | agent/node_executor.py:244-633 | the node's state change in all its branches |
| AgentGraph.RunGraph | agent/graph.py:66-117 | the loop of the two nodes under the two routings computes the run the theorems are about |
| Onchain.RoundWindowIsFirstAfter | labeling/onchain.py:86-96 | the window starts at the first aligned instant strictly after the prediction |
| Onchain.BucketFor | labeling/onchain.py:52-57 | the label returned covers the value; invalid bounds are an error |
| Onchain.BucketsPartition | labeling/onchain.py:37-57 | no value is covered by two labels |
| Onchain.BrierResult | labeling/onchain.py:74-83 | the score is the sum of squared distances; ties at the top are neutral, a unique top decides |
| Onchain.UniformScoresBaseline | labeling/onchain.py:74-83 | the uniform forecast scores 1 - 1/k whatever the outcome |
| Onchain.HonestyIsBest | labeling/onchain.py:74-83 | no forecast expects a lower score than the true probabilities |
| Onchain.HonestyBeatsBaseline | labeling/scorecards.py:207-226 | an honest forecast never expects a worse score than the baseline charged for a missed round |
| Onchain.FirstBlockAtOrAfter | labeling/onchain.py:110-121 | none exactly when the head is earlier, otherwise the first block at or after the time |
| Scorecards.SettledAtMostExpected | labeling/scorecards.py:159-206 | for the rows the query returns, settled rounds never exceed expected rounds |
| Scorecards.CoverageIsAFraction | labeling/scorecards.py:222-223 | coverage lies between zero and one |
| Scorecards.ElapsedIsExact | labeling/scorecards.py:196-206 | elapsed rounds are exactly the aligned ones that have had time to settle |
| Scorecards.ExpectedIsExact | labeling/scorecards.py:196-206 | the expected rounds are the elapsed ones that no row found unavailable |
| Scorecards.CardSays | labeling/scorecards.py:169-233 | a card read row by row: eligibility, submitted and unresolved rounds, coverage, mean score, and accuracy among correct and incorrect |
| Scorecards.CardAdjusts | labeling/scorecards.py:169-226 | the adjusted score is the sum of the scores, and the baseline of the most outcomes told apart for each missed round, over scored and missed rounds |
| Scorecards.FirstRoundIsExact | labeling/scorecards.py:196-202 | rounds count from the subject's first one, or from the first aligned one of the window if that is later |
| Scorecards.AdjustedMovesByDistance | labeling/scorecards.py:206-225 | scoring a missed round moves the adjusted mean by its distance from the baseline over the rounds counted |
| Scorecards.MissingHelpsIff | labeling/scorecards.py:206-225 | leaving out a forecast lowers the adjusted score if and only if it scored worse than uniform |
| Scorecards.LeavingOutABadForecastHelps | labeling/scorecards.py:206-225 | concrete rows of ten-second rounds where leaving a wrong forecast out improves the adjusted score from 1 to 1/4 |
| Scorecards.UniformForecastChangesNothing | labeling/scorecards.py:206-225 | a uniform forecast for a missed round leaves an eligible subject's adjusted score unchanged |
| Scorecards.TallyItems | labeling/scorecards.py:169-195 | the loop's counters, sets and list are those of the rows read one by one |
| Scorecards.Summarize | labeling/scorecards.py:151-233 | one card per subject, eligible ones first, among them the lower adjusted score and then the lower subject |
| Pricing.CalculateTurns | billing/pricing.py:331-357 | the loop's total is the metered turns plus each flat rule once |
| Pricing.CeilDivIsLeast | billing/pricing.py:299-308 | the rounding is the least whole number of units that covers the cost |
| Pricing.MeteredTurnAdds | billing/pricing.py:295-357 | a turn under a metered rule adds the least whole number of units that covers its tokens at their rates and a quarter of its cache writes at the input rate; one without a rule adds nothing |
| Pricing.UpstreamTurnAdds | billing/pricing.py:311-330 | a turn billed upstream adds the least whole number of units that covers the reported dollars times the multiplier |
| Pricing.SplittingCostsAtMostOne | billing/pricing.py:299-357 | splitting a rule-priced turn in two, anywhere in a run, never lowers the cost and adds at most one unit |
| Pricing.OrderDoesNotMatter | billing/pricing.py:331-357 | runs with the same turns in any order cost the same |
| Pricing.FlatRuleIsChargedOnce | billing/pricing.py:331-357 | a flat rule's price is added with its first turn and not again |
| PriceString.ParseInvertsPrint | billing/models.py:66-79 | negative amounts are refused; reading back any printed price gives the amount |
| PriceString.PrintIsInjective | billing/models.py:66-79 | different amounts print differently |
| PriceString.PriceFormat | billing/models.py:74-79 | two to six decimals and no trailing zero beyond the second |

## Left out

- Hex texts: `bytes.fromhex` also reads upper case and white space; here each digest has one text, and any other text is malformed.
- SHA-256, canonical JSON, EIP-191 signatures and leaf contents: digests are free constructors, leaves are opaque.
- Database collation: ids and source names are numbers, so the query's order and the program's order agree; this holds for lower-case hexadecimal ids.
- Which rows `SKIP LOCKED` finds locked is an input of a claim.
- BillingStore.Store.UpdateSpendingConfig: does not return the day's spend with the row.
- Chain reorganizations: `teardrop/agent_wallets.py:533-544` takes the first receipt it sees for a transfer as final, and that a transfer once seen reverted or confirmed stays so is assumed of every verdict; for anchoring, only a finalized and canonical receipt is.
- Text and time columns that no decision reads: last errors, settled and resolved times, transaction notes, delegation and tool-call events, telemetry fields.
- Refund rows without a link to their debit, which predate that column.
- The split of an earning between its author and the platform: an earnings row of a settled charge carries the full cost, and a withdrawal's earnings their author share.
- The credit preflight check, the delegation budget and count quotas, and the platform fee: read before, not inside, the transactions modelled.
- The time since an org's latest withdrawal request and its wallet configuration are inputs of a request.
- The sweep's retry bookkeeping carries no status guard in the code; it is one step with the failed call it follows.
- The reconciler's mismatch flag and batch limit; a mismatch changes no modelled column.
- Onboarding credit, provisioning, x402 and Stripe rails: a top-up is a positive credit with an optional payment reference.
- Argument parsing that can raise inside the tool-acceptance loop, tool bodies, per-tool timeouts and message texts: results are inputs, a missing one is the batch timeout's.
- Signature hashes cut to sixteen characters: a signature is its tool and a hash value, whatever the hash.
- Plans whose payload presets the stage index or completed ids; reference resolution inside arguments is an input.
- LangGraph's recursion limit: the repository sets none, so the framework's default ends a run with an error after that many node steps; "any number of visits" is about the graph's own routing.
- Prompts, synthesis retries and token usage of the planner: its answer is arbitrary.
- Calibration bins, display rounding to six decimals and floating-point error of scores and probabilities; sorting is by the exact score.
- Oracle decoding and the observation cache.
- Price lookups behind a cache: the price table is fixed for a run; tool and base prices are not part of this model.

# Deposit escrow contract and arbitration proposal, in Dafny

This project models the core of a security-deposit escrow CorDapp. A landlord, a tenant and a
backing scheme (the issuer) share one deposit record on a Corda ledger. Each lifecycle step
consumes the current version of the record and produces the next one.

The model has five modules:

- `Deposits` (`deposit.dfy`) holds the deposit record (`DepositState`), deductions, and the two
  structural comparisons the contract is written in. `IsEqualToExcluding` says every property
  outside a named set is equal. `ContainsAllExcluding` says every element of one deduction list
  matches some element of another once the named properties are ignored. Each comparison is tied
  to an independent reference: `Overwrite` for the record, and inclusion of (reason, evidence)
  claim sets for the deductions.
- `Ledger` (`ledger.dfy`) holds what a contract sees of a transaction: input and output states
  (deposit, cash, or another contract's state) and commands. A command belongs either to the
  contract's own family or to another family. The module also has the type filters
  (`inputsOfType`, `outputsOfType`) and command selection (`requireSingleCommand`).
- `DepositContract` (`deposit_contract.dfy`) is the rich `verify` of the contracts-and-states
  module. It has the Create, Fund and TenantDeduct rules, and every other command passes. The
  original throws in three ways: `.first()` on an empty list, `!!` on an absent value, and a failed
  requirement. Each becomes a distinct `Rejected` verdict.
- `SchemeDepositContract` (`scheme_contract.dfy`) is the minimal `verify` of the deposit-scheme
  module. It checks for exactly one `Create` command, no inputs and one output.
- `ArbitrateAndRefundFlow` (`arbitrate_flow.dfy`) builds the arbitrate-and-refund initiator's
  proposal. It produces the next deposit version, the `Arbitrate` command and its signers, the
  consumed and produced states, and the tenant/landlord cash split.

Notes on what the code does and how the model renders it:

- `verify` has rules for Create, Fund and TenantDeduct only. CoSign, LandlordDeduct,
  RequestRefund, Refund and Arbitrate accept any transaction that carries them as the single
  deposit command.
- The flow builds `Commands.Arbitrate`, but the contract's command family does not declare it.
  The model adds `Arbitrate` as an extra variant that no rule inspects.
- Command selection ignores commands of other families, such as cash moves. Only commands of the
  contract's own family are counted. In the minimal contract only `Create` commands are counted,
  so a `Create` beside a `Fund` is accepted (`SchemeDepositContract.OtherCommandsIgnored`).
- `sumByLong` is defined outside the modelled files. The model assumes it folds with plain 64-bit
  `+`, which wraps on overflow (`WrapLong`); see "## Left out". A Corda
  `Amount` is never negative, so an amount that would go negative is a `ProposalError` rather than
  a precondition.
- A party is its owning key. Corda compares parties by owning key only, so the X.500 name, which
  no rule reads, is not modelled, and two parties sharing a key are the same party here.
- Lists filtered by type keep every matching state in ledger order, so `size` counts matching
  positions and `first()` is the match at the least position (`Ledger.DepositsInByPosition`).
- `DepositState`, `Deduction` and `ArbitratorDeduction` are defined outside the modelled files. Their
  fields are taken from the call sites: the deposit constructor call in
  `cordapp-landlord/src/main/kotlin/com/stefano/corda/landlord/api/LandlordApi.kt:52-57` and the
  property references in the contract. The deduction's evidence field is named `evidence` here.

## Model

| member | source | states |
|---|---|---|
| `Deposits.EqualExcludingIffOverwrite` | cordapp-contracts-states/src/main/kotlin/com/stefano/corda/deposits/DepositContract.kt:55-56 | The equal-except comparison holds exactly when the second record is the first with only the excluded properties replaced |
| `Deposits.PerturbedFieldDetected` | cordapp-contracts-states/src/main/kotlin/com/stefano/corda/deposits/DepositContract.kt:55-56 | Changing any single property outside the exclusion set makes the comparison fail |
| `Deposits.ExcludedChangesIgnored` | cordapp-contracts-states/src/main/kotlin/com/stefano/corda/deposits/DepositContract.kt:69 | Differences confined to the excluded properties always pass the comparison |
| `Deposits.ContainsAllIgnoringAmountIffClaims` | cordapp-contracts-states/src/main/kotlin/com/stefano/corda/deposits/DepositContract.kt:71-72 | Containment ignoring amount holds exactly when every (reason, evidence) of the tenant's list occurs in the landlord's list |
| `Deposits.RevisedAmountsContained` | cordapp-contracts-states/src/main/kotlin/com/stefano/corda/deposits/DepositContract.kt:71-72 | A tenant list that only revises the amounts of the landlord's list passes containment |
| `Deposits.FabricatedReasonRejected` | cordapp-contracts-states/src/main/kotlin/com/stefano/corda/deposits/DepositContract.kt:71-72 | A tenant deduction whose reason the landlord never proposed fails containment |
| `Ledger.DepositsIn` | cordapp-contracts-states/src/main/kotlin/com/stefano/corda/deposits/DepositContract.kt:27 | The deposit filter keeps exactly the deposit states, is no longer than its input, and is empty iff no deposit is present |
| `Ledger.DepositsInByPosition` | cordapp-contracts-states/src/main/kotlin/com/stefano/corda/deposits/DepositContract.kt:31-35 | The deposit filter has one element per position holding a deposit, and its first element is the deposit at the least such position, which is what `size` and `first()` observe |
| `Ledger.CashIn` | cordapp-contracts-states/src/main/kotlin/com/stefano/corda/deposits/DepositContract.kt:43 | The cash filter keeps exactly the cash states, is no longer than its input, and is empty iff no cash is present |
| `Ledger.CashInByPosition` | cordapp-contracts-states/src/main/kotlin/com/stefano/corda/deposits/DepositContract.kt:43-53 | The cash filter has one element per position holding cash, and its first element is the cash at the least such position |
| `Ledger.Selected` | cordapp-contracts-states/src/main/kotlin/com/stefano/corda/deposits/DepositContract.kt:21 | Every command of the contract's family is selected and every selected value comes from such a command |
| `Ledger.SelectedByPosition` | cordapp-contracts-states/src/main/kotlin/com/stefano/corda/deposits/DepositContract.kt:21 | Selection has one value per position holding a command of the family, the first being the command at the least such position, so a single selected command is a single such position |
| `Ledger.SelectedAppend` | cordapp-contracts-states/src/main/kotlin/com/stefano/corda/deposits/DepositContract.kt:21 | Selecting from a concatenation is the concatenation of the selections |
| `DepositContract.Verify` | cordapp-contracts-states/src/main/kotlin/com/stefano/corda/deposits/DepositContract.kt:20-77 | Rejects unless exactly one deposit command is present; an accepted Create consumes nothing and outputs one deposit with landlord different from tenant; an accepted Fund has one deposit and one cash input; an accepted TenantDeduct has both deduction lists present |
| `DepositContract.CommandCountByPosition` | cordapp-contracts-states/src/main/kotlin/com/stefano/corda/deposits/DepositContract.kt:21 | The contract rejects for the command count exactly when the number of positions holding a deposit command is not one, and then reports that number |
| `DepositContract.CreateAcceptedIff` | cordapp-contracts-states/src/main/kotlin/com/stefano/corda/deposits/DepositContract.kt:24-37 | Create is accepted iff there are no inputs, exactly one output, that output is a deposit, and its landlord differs from its tenant |
| `DepositContract.CheckFundIff` | cordapp-contracts-states/src/main/kotlin/com/stefano/corda/deposits/DepositContract.kt:55-59 | The three Fund requirements on the chosen deposit input, deposit output and cash output hold together exactly when the output is the input with only `amountDeposited` replaced, that amount's quantity equals the cash quantity, and the cash is owned by the issuer |
| `DepositContract.FundAcceptedIff` | cordapp-contracts-states/src/main/kotlin/com/stefano/corda/deposits/DepositContract.kt:39-60 | Fund is accepted iff there is one deposit input and one cash input, a deposit output and a cash output exist, and the first deposit input, deposit output and cash output form a legal funding step (only `amountDeposited` changes, cash quantity matches, cash owned by the issuer) |
| `DepositContract.FundPerturbedFieldRejected` | cordapp-contracts-states/src/main/kotlin/com/stefano/corda/deposits/DepositContract.kt:55-56 | A Fund whose deposit output differs from the input in any single property other than `amountDeposited` is rejected |
| `DepositContract.FundMissingOutputRejected` | cordapp-contracts-states/src/main/kotlin/com/stefano/corda/deposits/DepositContract.kt:47-53 | With the input counts right, a Fund without a deposit output or without a cash output is rejected on an empty list |
| `DepositContract.CheckTenantDeductIff` | cordapp-contracts-states/src/main/kotlin/com/stefano/corda/deposits/DepositContract.kt:69-72 | The TenantDeduct requirements on the chosen input and output hold together exactly when the output changes only the accepted and tenant deductions, both deduction lists are present, and the tenant's (reason, evidence) claims are among the landlord's |
| `DepositContract.TenantDeductAcceptedIff` | cordapp-contracts-states/src/main/kotlin/com/stefano/corda/deposits/DepositContract.kt:63-73 | TenantDeduct is accepted iff a deposit input and a deposit output exist and the first of each form a legal tenant-deduct step |
| `DepositContract.TenantDeductPerturbedFieldRejected` | cordapp-contracts-states/src/main/kotlin/com/stefano/corda/deposits/DepositContract.kt:69 | A TenantDeduct whose deposit output differs from the input in any single property other than the accepted and tenant deductions is rejected by that requirement |
| `DepositContract.TenantDeductMissingListRejected` | cordapp-contracts-states/src/main/kotlin/com/stefano/corda/deposits/DepositContract.kt:71-72 | An otherwise matching TenantDeduct whose output lacks either deduction list is rejected on the absent value |
| `DepositContract.UnruledCommandsAccepted` | cordapp-contracts-states/src/main/kotlin/com/stefano/corda/deposits/DepositContract.kt:23-76 | A transaction whose single deposit command is CoSign, LandlordDeduct, RequestRefund, Refund or Arbitrate is accepted with no further check |
| `DepositContract.FundExtraDepositOutputAccepted` | cordapp-contracts-states/src/main/kotlin/com/stefano/corda/deposits/DepositContract.kt:49 | As written, a Fund whose outputs hold two deposit positions is accepted; the corrected rule rejects it with the one-deposit-output requirement |
| `DepositContract.VerifyCorrected` | cordapp-contracts-states/src/main/kotlin/com/stefano/corda/deposits/DepositContract.kt:47-53 | With the output count guarded as the message says, an accepted Fund has exactly one output position holding a deposit, and the corrected contract never accepts what the written one rejects |
| `DepositContract.CorrectedIsStricter` | cordapp-contracts-states/src/main/kotlin/com/stefano/corda/deposits/DepositContract.kt:47-53 | The corrected contract accepts a subset of what the written one accepts, and the two agree on Fund transactions with one deposit output |
| `SchemeDepositContract.CreateCount` | cordapp-deposit-scheme/src/main/kotlin/com/stefano/corda/deposits/DepositContract.kt:20 | The count is the number of positions holding a Create command of this family; it is zero iff no command is one |
| `SchemeDepositContract.CountOneIffSingleCreate` | cordapp-deposit-scheme/src/main/kotlin/com/stefano/corda/deposits/DepositContract.kt:20 | A count of one holds exactly when some position holds a Create and no other position does |
| `SchemeDepositContract.Verify` | cordapp-deposit-scheme/src/main/kotlin/com/stefano/corda/deposits/DepositContract.kt:19-32 | A transaction is accepted iff exactly one position holds a Create, nothing is consumed and there is one output; with any other number of Creates it is rejected and reports that number |
| `SchemeDepositContract.AnySingleOutputAccepted` | cordapp-deposit-scheme/src/main/kotlin/com/stefano/corda/deposits/DepositContract.kt:25-30 | Any single output under a lone Create with no inputs is accepted; its contents are never inspected |
| `SchemeDepositContract.OnlyOtherCommandRejected` | cordapp-deposit-scheme/src/main/kotlin/com/stefano/corda/deposits/DepositContract.kt:20 | A transaction whose only command is CoSign, Fund, Deduct or Refund is rejected |
| `SchemeDepositContract.TwoCreatesRejected` | cordapp-deposit-scheme/src/main/kotlin/com/stefano/corda/deposits/DepositContract.kt:20 | Any two Create commands, at any positions and with anything between them, are rejected for a command count of at least two |
| `SchemeDepositContract.InputConsumedRejected` | cordapp-deposit-scheme/src/main/kotlin/com/stefano/corda/deposits/DepositContract.kt:23 | Any transaction that consumes an input is rejected |
| `SchemeDepositContract.OtherCommandsIgnored` | cordapp-deposit-scheme/src/main/kotlin/com/stefano/corda/deposits/DepositContract.kt:20 | Adding a command that is not a Create never changes the verdict |
| `ArbitrateAndRefundFlow.NextVersion` | cordapp-contracts-states/src/main/kotlin/com/stefano/corda/deposits/flow/ArbitrateAndRefundFlow.kt:62 | The next version equals the prior one except `contestedDeductions` (set to the arbitrated list) and `refundedAt` (set to the given time) |
| `ArbitrateAndRefundFlow.RequiredSigners` | cordapp-contracts-states/src/main/kotlin/com/stefano/corda/deposits/flow/ArbitrateAndRefundFlow.kt:66-69 | The signers are three keys, and a key is among them exactly when it is the landlord's, tenant's or issuer's |
| `ArbitrateAndRefundFlow.WrapLong` | cordapp-contracts-states/src/main/kotlin/com/stefano/corda/deposits/flow/ArbitrateAndRefundFlow.kt:77 | 64-bit wrap-around lands in the signed long range, is congruent to its argument modulo 2^64, and is the identity inside the range |
| `ArbitrateAndRefundFlow.SumByLong` | cordapp-contracts-states/src/main/kotlin/com/stefano/corda/deposits/flow/ArbitrateAndRefundFlow.kt:77 | The step-by-step wrapping sum of the deduction quantities equals the exact total wrapped once |
| `ArbitrateAndRefundFlow.SplitDeposit` | cordapp-contracts-states/src/main/kotlin/com/stefano/corda/deposits/flow/ArbitrateAndRefundFlow.kt:77-82 | The split succeeds iff the wrapped total lies between zero and the deposit; then tenant and landlord shares sum exactly to the deposit, both in its currency, and the landlord's share is the total |
| `ArbitrateAndRefundFlow.SplitExactWhenBounded` | cordapp-contracts-states/src/main/kotlin/com/stefano/corda/deposits/flow/ArbitrateAndRefundFlow.kt:77-82 | When the exact total does not exceed the deposit, the landlord gets exactly the total and the tenant the deposit less the total |
| `ArbitrateAndRefundFlow.SplitRefusedWhenExceeding` | cordapp-contracts-states/src/main/kotlin/com/stefano/corda/deposits/flow/ArbitrateAndRefundFlow.kt:78-81 | A total above the deposit but within the long range makes the tenant amount negative and fails |
| `ArbitrateAndRefundFlow.EmptyDeductionsRefundTenant` | cordapp-contracts-states/src/main/kotlin/com/stefano/corda/deposits/flow/ArbitrateAndRefundFlow.kt:77-82 | With no deductions the tenant gets the whole deposit and the landlord zero |
| `ArbitrateAndRefundFlow.OverflowingTotalWraps` | cordapp-contracts-states/src/main/kotlin/com/stefano/corda/deposits/flow/ArbitrateAndRefundFlow.kt:77 | Deductions whose exact total passes the long range wrap, and the landlord is paid the wrapped remainder |
| `ArbitrateAndRefundFlow.ExampleSplit` | cordapp-contracts-states/src/main/kotlin/com/stefano/corda/deposits/flow/ArbitrateAndRefundFlow.kt:77-82 | A deposit of 1000.00 with one deduction of 50.00 splits into 950.00 for the tenant and 50.00 for the landlord |
| `ArbitrateAndRefundFlow.Propose` | cordapp-contracts-states/src/main/kotlin/com/stefano/corda/deposits/flow/ArbitrateAndRefundFlow.kt:57-87 | The proposal consumes exactly the prior deposit and outputs exactly its next version; the command is Arbitrate signed by the landlord, tenant and issuer keys; it pays the landlord and then the tenant, in the deposit's currency, with shares summing to the deposit; it fails iff the wrapped total is negative or exceeds the deposit |
| `ArbitrateAndRefundFlow.ProposalPaysDeductionsToLandlord` | cordapp-contracts-states/src/main/kotlin/com/stefano/corda/deposits/flow/ArbitrateAndRefundFlow.kt:85-87 | When the deductions fit in the deposit, the spend pays their total to the landlord and the remainder to the tenant |
| `ArbitrateAndRefundFlow.ProposalAcceptedByContract` | cordapp-contracts-states/src/main/kotlin/com/stefano/corda/deposits/flow/ArbitrateAndRefundFlow.kt:66-74 | Whatever cash inputs, outputs and cash commands the spend adds, the deposit contract accepts the arbitration transaction, written or corrected |

## Findings

| source | as written | input that shows it | evidently intended | confidence | as-written member | corrected member |
|---|---|---|---|---|---|---|
| cordapp-contracts-states/src/main/kotlin/com/stefano/corda/deposits/DepositContract.kt:49 | The requirement whose message asks for one deposit output tests the deposit input count again | A Fund transaction with one unfunded deposit input, one cash input, two copies of the funded deposit as outputs and cash owned by the issuer is accepted | The deposit output count must be exactly one | high (not executed) | `DepositContract.FundExtraDepositOutputAccepted` | `DepositContract.VerifyCorrected` |

## Left out

- The session, identity and signature plumbing of the arbitrate flow: `initiateFlow`, sending state and identity context, signature collection and finality. These are networked, suspending calls into the ledger runtime.
- The responder role of the arbitrate flow. It only receives context and signs; its transaction check is empty and delegates to the contract.
- The internals of the cash spend. Coin selection and change outputs come from the finance library. The model keeps the requested (party, amount) pairs and lets `ProposalAcceptedByContract` range over any cash states and non-deposit commands the spend adds.
- Locating the prior state by linear id, and the notary choice. Both are vault and network-map lookups, so the prior state and reference are parameters.
- The clock. `Instant.now()` is the parameter `now`.
- Progress trackers, the REST layers, attachment storage and the web plugin registration. These are configuration and I/O.
- Amount display token sizes. Corda checks them on subtraction, but every subtraction here uses the deposit's own token.
- ArbitrateAndRefundFlow.SumByLong: assumes `sumByLong` adds with plain 64-bit `+` and wraps on overflow. Its definition is outside the modelled files; if it used checked addition, an overflowing total would throw instead, and `OverflowingTotalWraps` and the wrapped success condition of `SplitDeposit` and `Propose` would not apply.
- The X.500 name of a party. Party equality compares owning keys only, and no rule reads the name.
- DepositContract.Verify: a failed requirement names the rule broken rather than carrying the original message text.

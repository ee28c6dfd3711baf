/** The deposit transition contract of the contracts-and-states module: a
    total predicate over a transaction that dispatches on its single deposit
    command. An exception thrown by the original (`.first()` on an empty
    list, `!!` on an absent value, a failed requirement) is a `Rejected`
    verdict here. */
module DepositContract {
  import opened Deposits
  import opened Ledger

  /** The command family. `Arbitrate` is built by the arbitrate-and-refund
      flow although the contract's own family does not declare it; it is
      kept here as an extra variant that no rule inspects. */
  datatype DepositCommand =
    | Create(propertyId: string)
    | CoSign(propertyId: string)
    | Fund(propertyId: string)
    | LandlordDeduct(propertyId: string)
    | TenantDeduct(propertyId: string)
    | RequestRefund(propertyId: string)
    | Refund(propertyId: string)
    | Arbitrate(propertyId: string)

  /** The named requirements of the contract, in the order they are checked. */
  datatype Rule =
    // Create
    | NoDepositInputs | NoInputs | OneDepositOutput | OneOutput | DistinctLandlordTenant
    // Fund
    | OneDepositInput | OneCashInput | OnlyAmountDepositedChanges | CashEqualsDeposit | CashToIssuer
    // TenantDeduct
    | OnlyDeductionFieldsChange | TenantDeductionsFromLandlord

  type DepositTransaction = Transaction<DepositCommand>

  /** Which count guards the deposit-output requirement of Fund: the input
      count, as the contract is written, or the output count its message
      names. */
  datatype FundOutputGuard = AsWritten | Corrected

  function CheckCreate(tx: DepositTransaction): Verdict<Rule>
  {
    var depositInputs := DepositsIn(tx.inputs);
    var depositOutputs := DepositsIn(tx.outputs);
    if |depositInputs| != 0 then Rejected(Requirement(NoDepositInputs))
    else if |tx.inputs| != 0 then Rejected(Requirement(NoInputs))
    else if |depositOutputs| != 1 then Rejected(Requirement(OneDepositOutput))
    else if |tx.outputs| != 1 then Rejected(Requirement(OneOutput))
    else if depositOutputs[0].landlord == depositOutputs[0].tenant then Rejected(Requirement(DistinctLandlordTenant))
    else Accepted
  }

  function CheckFund(tx: DepositTransaction, guard: FundOutputGuard): Verdict<Rule>
  {
    var depositInputs := DepositsIn(tx.inputs);
    var cashInputs := CashIn(tx.inputs);
    var depositOutputs := DepositsIn(tx.outputs);
    var cashOutputs := CashIn(tx.outputs);
    var guarded := if guard == AsWritten then depositInputs else depositOutputs;
    if |depositInputs| != 1 then Rejected(Requirement(OneDepositInput))
    else if |cashInputs| != 1 then Rejected(Requirement(OneCashInput))
    else if |guarded| != 1 then Rejected(Requirement(OneDepositOutput))
    else if |depositOutputs| == 0 || |cashOutputs| == 0 then Rejected(EmptyList)
    else
      var input := depositInputs[0];
      var output := depositOutputs[0];
      var cash := cashOutputs[0];
      if !IsEqualToExcluding(input, output, {AmountDeposited}) then Rejected(Requirement(OnlyAmountDepositedChanges))
      else if !(output.amountDeposited.Some? && output.amountDeposited.value.quantity == cash.amount.quantity) then
        Rejected(Requirement(CashEqualsDeposit))
      else if cash.owner != output.issuer then Rejected(Requirement(CashToIssuer))
      else Accepted
  }

  function CheckTenantDeduct(tx: DepositTransaction): Verdict<Rule>
  {
    var depositInputs := DepositsIn(tx.inputs);
    var depositOutputs := DepositsIn(tx.outputs);
    if |depositInputs| == 0 || |depositOutputs| == 0 then Rejected(EmptyList)
    else
      var input := depositInputs[0];
      var output := depositOutputs[0];
      if !IsEqualToExcluding(input, output, {AcceptedDeductions, TenantDeductions}) then
        Rejected(Requirement(OnlyDeductionFieldsChange))
      else if output.landlordDeductions.None? || output.tenantDeductions.None? then Rejected(AbsentValue)
      else if !ContainsAllExcluding(output.landlordDeductions.value, output.tenantDeductions.value, {DeductionAmount}) then
        Rejected(Requirement(TenantDeductionsFromLandlord))
      else Accepted
  }

  /** The contract with the Fund output requirement guarded by `guard`. */
  function VerifyWith(tx: DepositTransaction, guard: FundOutputGuard): Verdict<Rule>
  {
    var commands := Selected(tx.commands);
    if |commands| != 1 then Rejected(CommandCount(|commands|))
    else
      match commands[0]
      case Create(_) => CheckCreate(tx)
      case Fund(_) => CheckFund(tx, guard)
      case TenantDeduct(_) => CheckTenantDeduct(tx)
      case _ => Accepted
  }

  /** The contract as written. */
  function Verify(tx: DepositTransaction): (v: Verdict<Rule>)
    ensures |Selected(tx.commands)| != 1 ==> v == Rejected(CommandCount(|Selected(tx.commands)|))
    ensures |Selected(tx.commands)| == 1 && Selected(tx.commands)[0].Create? && v.Accepted? ==>
      && |tx.inputs| == 0 && |tx.outputs| == 1 && tx.outputs[0].DepositOf?
      && tx.outputs[0].deposit.landlord != tx.outputs[0].deposit.tenant
    ensures |Selected(tx.commands)| == 1 && Selected(tx.commands)[0].Fund? && v.Accepted? ==>
      |DepositsIn(tx.inputs)| == 1 && |CashIn(tx.inputs)| == 1
    ensures |Selected(tx.commands)| == 1 && Selected(tx.commands)[0].TenantDeduct? && v.Accepted? ==>
      && |DepositsIn(tx.outputs)| > 0
      && DepositsIn(tx.outputs)[0].landlordDeductions.Some?
      && DepositsIn(tx.outputs)[0].tenantDeductions.Some?
  {
    var v := VerifyWith(tx, AsWritten);
    assert |Selected(tx.commands)| == 1 && Selected(tx.commands)[0].Create? && v.Accepted? ==>
      |tx.inputs| == 0 && |tx.outputs| == 1 && tx.outputs[0].DepositOf? by {
      if |Selected(tx.commands)| == 1 && Selected(tx.commands)[0].Create? && v.Accepted? {
        SingleDepositOutput(tx.outputs);
      }
    }
    v
  }

  /** The contract with the Fund output requirement checking the outputs, as
      its message says. */
  function VerifyCorrected(tx: DepositTransaction): (v: Verdict<Rule>)
    ensures |Selected(tx.commands)| == 1 && Selected(tx.commands)[0].Fund? && v.Accepted? ==>
      |DepositsIn(tx.inputs)| == 1 && |CashIn(tx.inputs)| == 1 && |DepositsIn(tx.outputs)| == 1
    ensures |Selected(tx.commands)| == 1 && Selected(tx.commands)[0].Fund? && v.Accepted? ==>
      |Positions(tx.outputs, IsDeposit)| == 1
    ensures v.Accepted? ==> Verify(tx).Accepted?
  {
    DepositsInByPosition(tx.outputs);
    VerifyWith(tx, Corrected)
  }

  /** The contract rejects for the command count exactly when the number of
      positions holding a deposit command is not one. */
  lemma CommandCountByPosition(tx: DepositTransaction)
    ensures Verify(tx).Rejected? && Verify(tx).violation.CommandCount? <==> |Positions(tx.commands, IsOurs)| != 1
    ensures |Positions(tx.commands, IsOurs)| != 1 ==> Verify(tx).violation.found == |Positions(tx.commands, IsOurs)|
  {
    SelectedByPosition(tx.commands);
  }

  /** A one-element state list has one deposit exactly when that element is one. */
  lemma SingleDepositOutput(states: seq<LedgerState>)
    requires |states| == 1
    ensures |DepositsIn(states)| == 1 <==> states[0].DepositOf?
    ensures states[0].DepositOf? ==> DepositsIn(states) == [states[0].deposit]
  {
    assert states[1..] == [];
  }

  /** Create is accepted exactly when nothing is consumed and the only output
      is a deposit between two different parties. */
  lemma CreateAcceptedIff(tx: DepositTransaction, propertyId: string)
    requires Selected(tx.commands) == [Create(propertyId)]
    ensures Verify(tx).Accepted? <==>
      && |tx.inputs| == 0
      && |tx.outputs| == 1
      && tx.outputs[0].DepositOf?
      && tx.outputs[0].deposit.landlord != tx.outputs[0].deposit.tenant
  {
    if |tx.outputs| == 1 {
      SingleDepositOutput(tx.outputs);
    }
  }

  /** The reference meaning of a legal funding step: the output deposit is
      the input with only `amountDeposited` replaced, that amount's quantity
      is the cash's, and the cash goes to the issuer. */
  predicate LegalFund(input: DepositState, output: DepositState, cash: CashState)
  {
    && output == input.(amountDeposited := output.amountDeposited)
    && output.amountDeposited.Some?
    && output.amountDeposited.value.quantity == cash.amount.quantity
    && cash.owner == output.issuer
  }

  lemma CheckFundIff(input: DepositState, output: DepositState, cash: CashState)
    ensures
      && IsEqualToExcluding(input, output, {AmountDeposited})
      && output.amountDeposited.Some?
      && output.amountDeposited.value.quantity == cash.amount.quantity
      && cash.owner == output.issuer
      <==> LegalFund(input, output, cash)
  {
    EqualExcludingIffOverwrite(input, output, {AmountDeposited});
    assert Overwrite(input, output, {AmountDeposited}) == input.(amountDeposited := output.amountDeposited);
  }

  /** Fund is accepted exactly when there is one deposit and one cash input,
      a deposit and a cash output exist, and the first deposit input, first
      deposit output and first cash output form a legal funding step. */
  lemma FundAcceptedIff(tx: DepositTransaction, propertyId: string)
    requires Selected(tx.commands) == [Fund(propertyId)]
    ensures Verify(tx).Accepted? <==>
      && |DepositsIn(tx.inputs)| == 1
      && |CashIn(tx.inputs)| == 1
      && |DepositsIn(tx.outputs)| > 0
      && |CashIn(tx.outputs)| > 0
      && LegalFund(DepositsIn(tx.inputs)[0], DepositsIn(tx.outputs)[0], CashIn(tx.outputs)[0])
  {
    var ins := DepositsIn(tx.inputs);
    var outs := DepositsIn(tx.outputs);
    var cash := CashIn(tx.outputs);
    assert Verify(tx) == CheckFund(tx, AsWritten);
    if |ins| > 0 && |outs| > 0 && |cash| > 0 {
      CheckFundIff(ins[0], outs[0], cash[0]);
    }
  }

  /** Fund rejects a deposit output that changes any property other than
      `amountDeposited`. */
  lemma FundPerturbedFieldRejected(tx: DepositTransaction, propertyId: string, f: Field)
    requires Selected(tx.commands) == [Fund(propertyId)]
    requires |DepositsIn(tx.inputs)| > 0 && |DepositsIn(tx.outputs)| > 0
    requires f != AmountDeposited && !SameField(DepositsIn(tx.inputs)[0], DepositsIn(tx.outputs)[0], f)
    ensures Verify(tx).Rejected?
  {
    PerturbedFieldDetected(DepositsIn(tx.inputs)[0], DepositsIn(tx.outputs)[0], {AmountDeposited}, f);
  }

  /** TenantDeduct rejects a deposit output that changes any property other
      than the accepted and tenant deductions. */
  lemma TenantDeductPerturbedFieldRejected(tx: DepositTransaction, propertyId: string, f: Field)
    requires Selected(tx.commands) == [TenantDeduct(propertyId)]
    requires |DepositsIn(tx.inputs)| > 0 && |DepositsIn(tx.outputs)| > 0
    requires f != AcceptedDeductions && f != TenantDeductions
    requires !SameField(DepositsIn(tx.inputs)[0], DepositsIn(tx.outputs)[0], f)
    ensures Verify(tx) == Rejected(Requirement(OnlyDeductionFieldsChange))
  {
    assert Verify(tx) == CheckTenantDeduct(tx);
    PerturbedFieldDetected(DepositsIn(tx.inputs)[0], DepositsIn(tx.outputs)[0], {AcceptedDeductions, TenantDeductions}, f);
  }

  /** With the counts right, a Fund transaction that lacks a deposit output
      or a cash output fails on taking the first element of an empty list. */
  lemma FundMissingOutputRejected(tx: DepositTransaction, propertyId: string)
    requires Selected(tx.commands) == [Fund(propertyId)]
    requires |DepositsIn(tx.inputs)| == 1 && |CashIn(tx.inputs)| == 1
    requires (forall k | 0 <= k < |tx.outputs| :: !tx.outputs[k].DepositOf?)
          || (forall k | 0 <= k < |tx.outputs| :: !tx.outputs[k].CashOf?)
    ensures Verify(tx) == Rejected(EmptyList)
  {
  }

  /** The reference meaning of a legal tenant-deduct step: the output is the
      input with only the accepted and tenant deductions replaced, both
      deduction lists are present, and every tenant deduction names a reason
      and evidence the landlord proposed. */
  predicate LegalTenantDeduct(input: DepositState, output: DepositState)
  {
    && output == input.(acceptedDeductions := output.acceptedDeductions, tenantDeductions := output.tenantDeductions)
    && output.landlordDeductions.Some?
    && output.tenantDeductions.Some?
    && Claims(output.tenantDeductions.value) <= Claims(output.landlordDeductions.value)
  }

  lemma CheckTenantDeductIff(input: DepositState, output: DepositState)
    ensures
      && IsEqualToExcluding(input, output, {AcceptedDeductions, TenantDeductions})
      && output.landlordDeductions.Some? && output.tenantDeductions.Some?
      && ContainsAllExcluding(output.landlordDeductions.value, output.tenantDeductions.value, {DeductionAmount})
      <==> LegalTenantDeduct(input, output)
  {
    var fields := {AcceptedDeductions, TenantDeductions};
    EqualExcludingIffOverwrite(input, output, fields);
    assert Overwrite(input, output, fields) ==
      input.(acceptedDeductions := output.acceptedDeductions, tenantDeductions := output.tenantDeductions);
    if output.landlordDeductions.Some? && output.tenantDeductions.Some? {
      ContainsAllIgnoringAmountIffClaims(output.landlordDeductions.value, output.tenantDeductions.value);
    }
  }

  /** TenantDeduct is accepted exactly when both a deposit input and output
      exist and the first of each form a legal tenant-deduct step. */
  lemma TenantDeductAcceptedIff(tx: DepositTransaction, propertyId: string)
    requires Selected(tx.commands) == [TenantDeduct(propertyId)]
    ensures Verify(tx).Accepted? <==>
      && |DepositsIn(tx.inputs)| > 0
      && |DepositsIn(tx.outputs)| > 0
      && LegalTenantDeduct(DepositsIn(tx.inputs)[0], DepositsIn(tx.outputs)[0])
  {
    var ins := DepositsIn(tx.inputs);
    var outs := DepositsIn(tx.outputs);
    assert Verify(tx) == CheckTenantDeduct(tx);
    if |ins| > 0 && |outs| > 0 {
      CheckTenantDeductIff(ins[0], outs[0]);
    }
  }

  /** A TenantDeduct transaction whose states match but whose output lacks
      either deduction list fails on the absent value. */
  lemma TenantDeductMissingListRejected(tx: DepositTransaction, propertyId: string)
    requires Selected(tx.commands) == [TenantDeduct(propertyId)]
    requires |DepositsIn(tx.inputs)| > 0 && |DepositsIn(tx.outputs)| > 0
    requires IsEqualToExcluding(DepositsIn(tx.inputs)[0], DepositsIn(tx.outputs)[0], {AcceptedDeductions, TenantDeductions})
    requires DepositsIn(tx.outputs)[0].landlordDeductions.None? || DepositsIn(tx.outputs)[0].tenantDeductions.None?
    ensures Verify(tx) == Rejected(AbsentValue)
  {
  }

  /** The commands without a rule accept every transaction that carries one
      of them as its single deposit command. */
  lemma UnruledCommandsAccepted(tx: DepositTransaction, command: DepositCommand)
    requires Selected(tx.commands) == [command]
    requires !command.Create? && !command.Fund? && !command.TenantDeduct?
    ensures Verify(tx).Accepted?
    ensures VerifyCorrected(tx).Accepted?
  {
  }

  /** A Fund transaction that consumes an unfunded deposit and a tenant's
      cash token, and outputs the funded deposit twice and the cash owned by
      the issuer. */
  function FundWithTwoDepositOutputs(d: DepositState, amount: Amount): DepositTransaction
  {
    var funded := d.(amountDeposited := Some(amount));
    Transaction(
      [DepositOf(d), CashOf(CashState(amount, d.tenant))],
      [DepositOf(funded), DepositOf(funded), CashOf(CashState(amount, d.issuer))],
      [Ours(Fund(d.propertyId), [d.tenant.owningKey])])
  }

  lemma FundWithTwoDepositOutputsShape(d: DepositState, amount: Amount)
    ensures var tx := FundWithTwoDepositOutputs(d, amount);
      && Selected(tx.commands) == [Fund(d.propertyId)]
      && DepositsIn(tx.inputs) == [d]
      && CashIn(tx.inputs) == [CashState(amount, d.tenant)]
      && DepositsIn(tx.outputs) == [d.(amountDeposited := Some(amount)), d.(amountDeposited := Some(amount))]
      && CashIn(tx.outputs) == [CashState(amount, d.issuer)]
  {
    var tx := FundWithTwoDepositOutputs(d, amount);
    var funded := d.(amountDeposited := Some(amount));
    assert tx.commands[..0] == [];
    assert tx.inputs[..1] == [DepositOf(d)];
    assert tx.inputs[..1][..0] == [];
    assert tx.outputs[..2] == [DepositOf(funded), DepositOf(funded)];
    assert tx.outputs[..2][..1] == [DepositOf(funded)];
    assert tx.outputs[..2][..1][..0] == [];
    assert DepositsIn(tx.outputs[..2][..1]) == [funded];
    assert DepositsIn(tx.outputs[..2]) == [funded, funded];
    assert CashIn(tx.outputs[..2][..1]) == [];
    assert CashIn(tx.outputs[..2]) == [];
  }

  lemma FundWithTwoDepositOutputsChecks(d: DepositState, amount: Amount)
    ensures CheckFund(FundWithTwoDepositOutputs(d, amount), AsWritten).Accepted?
    ensures CheckFund(FundWithTwoDepositOutputs(d, amount), Corrected) == Rejected(Requirement(OneDepositOutput))
  {
    FundWithTwoDepositOutputsShape(d, amount);
    CheckFundIff(d, d.(amountDeposited := Some(amount)), CashState(amount, d.issuer));
  }

  /** The as-written Fund rule accepts a second deposit output: the guard
      meant for the output count re-checks the input count. */
  lemma FundExtraDepositOutputAccepted(d: DepositState, amount: Amount)
    requires d.amountDeposited.None?
    ensures Verify(FundWithTwoDepositOutputs(d, amount)).Accepted?
    ensures VerifyCorrected(FundWithTwoDepositOutputs(d, amount)) == Rejected(Requirement(OneDepositOutput))
    ensures |Positions(FundWithTwoDepositOutputs(d, amount).outputs, IsDeposit)| == 2
  {
    var tx := FundWithTwoDepositOutputs(d, amount);
    FundWithTwoDepositOutputsChecks(d, amount);
    assert Selected(tx.commands) == [Fund(d.propertyId)] by {
      FundWithTwoDepositOutputsShape(d, amount);
    }
    assert Verify(tx) == CheckFund(tx, AsWritten);
    assert VerifyCorrected(tx) == CheckFund(tx, Corrected);
    assert |Positions(tx.outputs, IsDeposit)| == 2 by {
      FundWithTwoDepositOutputsShape(d, amount);
      DepositsInByPosition(tx.outputs);
    }
  }

  /** The corrected contract never accepts more than the one written. */
  lemma CorrectedIsStricter(tx: DepositTransaction)
    ensures VerifyCorrected(tx).Accepted? ==> Verify(tx).Accepted?
    ensures |Selected(tx.commands)| == 1 && Selected(tx.commands)[0].Fund? && |DepositsIn(tx.outputs)| == 1 ==>
      VerifyCorrected(tx) == Verify(tx)
  {
  }
}

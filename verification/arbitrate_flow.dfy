/** The proposal the arbitrate-and-refund initiator builds from the prior
    deposit version: the next version, the command with its required
    signers, the consumed and produced states, and the two cash payments
    that split the deposit between tenant and landlord. The clock reading is
    a parameter; sessions, signature collection and finality are not part
    of this model. */
module ArbitrateAndRefundFlow {
  import opened Deposits
  import opened Ledger
  import DepositContract

  const LONG_MIN: int := -0x8000_0000_0000_0000
  const TWO_TO_64: int := 0x1_0000_0000_0000_0000

  /** Two's-complement wrap-around of a 64-bit signed addition. */
  function WrapLong(x: int): (r: int)
    ensures LONG_MIN <= r <= LONG_MAX
    ensures (x - r) % TWO_TO_64 == 0
    ensures LONG_MIN <= x <= LONG_MAX ==> r == x
  {
    (x - LONG_MIN) % TWO_TO_64 + LONG_MIN
  }

  /** Wrapping depends only on the value modulo 2^64. */
  lemma WrapCongruent(a: int, b: int)
    requires (a - b) % TWO_TO_64 == 0
    ensures WrapLong(a) == WrapLong(b)
  {
    var k := (a - b) / TWO_TO_64;
    assert a == b + k * TWO_TO_64;
    assert (a - LONG_MIN) == (b - LONG_MIN) + k * TWO_TO_64;
    ModuloShift(b - LONG_MIN, k);
  }

  lemma ModuloShift(x: int, k: int)
    ensures (x + k * TWO_TO_64) % TWO_TO_64 == x % TWO_TO_64
  {
  }

  /** The exact sum of the deduction quantities. */
  function TotalQuantity(deductions: seq<ArbitratorDeduction>): nat
  {
    if |deductions| == 0 then 0
    else deductions[0].amount.quantity + TotalQuantity(deductions[1..])
  }

  lemma {:induction false} TotalQuantitySnoc(deductions: seq<ArbitratorDeduction>)
    requires |deductions| > 0
    ensures TotalQuantity(deductions) ==
      TotalQuantity(deductions[..|deductions| - 1]) + deductions[|deductions| - 1].amount.quantity
  {
    if |deductions| > 1 {
      var rest := deductions[1..];
      assert rest[..|rest| - 1] == deductions[..|deductions| - 1][1..];
      TotalQuantitySnoc(rest);
    } else {
      assert deductions[..0] == [];
    }
  }

  /** The quantities summed left to right in 64-bit arithmetic, wrapping at
      every step; it is the exact total reduced into the signed 64-bit range. */
  function SumByLong(deductions: seq<ArbitratorDeduction>): (total: int)
    ensures total == WrapLong(TotalQuantity(deductions))
  {
    if |deductions| == 0 then 0
    else
      var n := |deductions| - 1;
      var prefix := SumByLong(deductions[..n]);
      var total := WrapLong(prefix + deductions[n].amount.quantity);
      assert total == WrapLong(TotalQuantity(deductions)) by {
        TotalQuantitySnoc(deductions);
        var exact := TotalQuantity(deductions[..n]);
        assert (prefix + deductions[n].amount.quantity - (exact + deductions[n].amount.quantity)) % TWO_TO_64 == 0 by {
          assert (exact - prefix) % TWO_TO_64 == 0;
        }
        WrapCongruent(prefix + deductions[n].amount.quantity, exact + deductions[n].amount.quantity);
      }
      total
  }

  /** Why building a proposal throws: an amount would become negative. */
  datatype ProposalError = NegativeAmount(quantity: int)

  datatype Shares = Shares(tenant: Amount, landlord: Amount)

  /** The tenant gets the deposit less the deduction total, in the deposit's
      currency; the landlord gets the deposit less the tenant's share. A
      negative total (after wrap-around) or a total above the deposit makes
      an amount negative, which the original rejects by throwing. */
  function SplitDeposit(deposit: Amount, deductions: seq<ArbitratorDeduction>): (r: Result<Shares, ProposalError>)
    ensures r.Success? <==> 0 <= WrapLong(TotalQuantity(deductions)) <= deposit.quantity
    ensures r.Success? ==>
      && r.value.tenant.quantity + r.value.landlord.quantity == deposit.quantity
      && r.value.tenant.token == deposit.token
      && r.value.landlord.token == deposit.token
      && r.value.landlord.quantity == WrapLong(TotalQuantity(deductions))
  {
    var total := SumByLong(deductions);
    if total < 0 then Failure(NegativeAmount(total))
    else if deposit.quantity - total < 0 then Failure(NegativeAmount(deposit.quantity - total))
    else
      var tenant := Amount(deposit.quantity - total, deposit.token);
      var landlord := Amount(deposit.quantity - tenant.quantity, deposit.token);
      Success(Shares(tenant, landlord))
  }

  /** When the deductions do not exceed the deposit, no wrap-around happens:
      the landlord receives exactly the deduction total and the tenant the
      rest. */
  lemma SplitExactWhenBounded(deposit: Amount, deductions: seq<ArbitratorDeduction>)
    requires TotalQuantity(deductions) <= deposit.quantity
    ensures SplitDeposit(deposit, deductions).Success?
    ensures SplitDeposit(deposit, deductions).value.landlord == Amount(TotalQuantity(deductions), deposit.token)
    ensures SplitDeposit(deposit, deductions).value.tenant.quantity == deposit.quantity - TotalQuantity(deductions)
  {
  }

  /** A total beyond the deposit that still fits in 64 bits is refused. */
  lemma SplitRefusedWhenExceeding(deposit: Amount, deductions: seq<ArbitratorDeduction>)
    requires deposit.quantity < TotalQuantity(deductions) <= LONG_MAX
    ensures SplitDeposit(deposit, deductions) == Failure(NegativeAmount(deposit.quantity - TotalQuantity(deductions)))
  {
  }

  /** With no deductions the tenant receives the whole deposit. */
  lemma EmptyDeductionsRefundTenant(deposit: Amount)
    ensures SplitDeposit(deposit, []) == Success(Shares(deposit, Amount(0, deposit.token)))
  {
  }

  /** A deduction total past the 64-bit range wraps: three deductions, two of
      them the largest quantity, sum to one and pay the landlord one unit. */
  lemma OverflowingTotalWraps(deposit: Amount, a: ArbitratorDeduction, b: ArbitratorDeduction, c: ArbitratorDeduction)
    requires deposit.quantity >= 1
    requires a.amount.quantity == LONG_MAX && b.amount.quantity == LONG_MAX && c.amount.quantity == 3
    ensures SplitDeposit(deposit, [a, b, c]).Success?
    ensures SplitDeposit(deposit, [a, b, c]).value.landlord.quantity == 1
  {
    var ds := [a, b, c];
    assert ds[1..][1..][1..] == [];
    assert TotalQuantity(ds[1..][1..]) == 3;
    assert TotalQuantity(ds[1..]) == LONG_MAX + 3;
    assert TotalQuantity(ds) == TWO_TO_64 + 1;
    assert WrapLong(TWO_TO_64 + 1) == 1;
  }

  /** A deposit of 1000.00 with one deduction of 50.00 pays 950.00 to the
      tenant and 50.00 to the landlord (quantities in pence). */
  lemma ExampleSplit(gbp: Currency, reason: string)
    ensures SplitDeposit(Amount(100000, gbp), [ArbitratorDeduction(reason, Amount(5000, gbp))])
         == Success(Shares(Amount(95000, gbp), Amount(5000, gbp)))
  {
    assert [ArbitratorDeduction(reason, Amount(5000, gbp))][1..] == [];
  }

  datatype StateRef = StateRef(txhash: SecureHash, index: nat)
  datatype StateAndRef = StateAndRef(state: DepositState, ref: StateRef)
  datatype PartyAndAmount = PartyAndAmount(party: Party, amount: Amount)

  /** The transaction under construction before cash is added, together with
      the payments requested from the cash spend. */
  datatype Proposal = Proposal(
    inputs: seq<StateRef>,
    outputs: seq<DepositState>,
    command: CommandEntry<DepositContract.DepositCommand>,
    payments: seq<PartyAndAmount>)

  /** The next deposit version: the prior one with the arbitrated deductions
      recorded and the refund time stamped. */
  function NextVersion(prior: DepositState, deductions: seq<ArbitratorDeduction>, now: Instant): (next: DepositState)
    ensures IsEqualToExcluding(prior, next, {ContestedDeductions, RefundedAt})
    ensures next.contestedDeductions == Some(deductions) && next.refundedAt == Some(now)
  {
    prior.(contestedDeductions := Some(deductions), refundedAt := Some(now))
  }

  /** The keys that must sign the arbitration: landlord, tenant and issuer. */
  function RequiredSigners(d: DepositState): (keys: seq<PublicKey>)
    ensures |keys| == 3
    ensures forall k :: k in keys <==> k in {d.landlord.owningKey, d.tenant.owningKey, d.issuer.owningKey}
  {
    [d.landlord.owningKey, d.tenant.owningKey, d.issuer.owningKey]
  }

  function Propose(prior: StateAndRef, deductions: seq<ArbitratorDeduction>, now: Instant): (r: Result<Proposal, ProposalError>)
    ensures r.Success? <==> 0 <= WrapLong(TotalQuantity(deductions)) <= prior.state.depositAmount.quantity
    ensures r.Success? ==>
      && r.value.inputs == [prior.ref]
      && |r.value.outputs| == 1
      && IsEqualToExcluding(prior.state, r.value.outputs[0], {ContestedDeductions, RefundedAt})
      && r.value.outputs[0].contestedDeductions == Some(deductions)
      && r.value.outputs[0].refundedAt == Some(now)
    ensures r.Success? ==>
      && r.value.command.Ours?
      && r.value.command.value == DepositContract.Arbitrate(prior.state.propertyId)
      && (forall k :: k in r.value.command.signers <==>
            k in {prior.state.landlord.owningKey, prior.state.tenant.owningKey, prior.state.issuer.owningKey})
    ensures r.Success? ==>
      && |r.value.payments| == 2
      && r.value.payments[0].party == prior.state.landlord
      && r.value.payments[1].party == prior.state.tenant
      && r.value.payments[0].amount.quantity + r.value.payments[1].amount.quantity == prior.state.depositAmount.quantity
      && r.value.payments[0].amount.token == prior.state.depositAmount.token
      && r.value.payments[1].amount.token == prior.state.depositAmount.token
  {
    var next := NextVersion(prior.state, deductions, now);
    var command := Ours(DepositContract.Arbitrate(next.propertyId), RequiredSigners(next));
    match SplitDeposit(next.depositAmount, deductions)
    case Failure(e) => Failure(e)
    case Success(shares) =>
      Success(Proposal(
        [prior.ref],
        [next],
        command,
        [PartyAndAmount(next.landlord, shares.landlord), PartyAndAmount(next.tenant, shares.tenant)]))
  }

  /** When the deductions fit in the deposit, the landlord is paid exactly
      their total and the tenant the remainder. */
  lemma ProposalPaysDeductionsToLandlord(prior: StateAndRef, deductions: seq<ArbitratorDeduction>, now: Instant)
    requires TotalQuantity(deductions) <= prior.state.depositAmount.quantity
    ensures Propose(prior, deductions, now).Success?
    ensures Propose(prior, deductions, now).value.payments == [
      PartyAndAmount(prior.state.landlord, Amount(TotalQuantity(deductions), prior.state.depositAmount.token)),
      PartyAndAmount(prior.state.tenant, Amount(prior.state.depositAmount.quantity - TotalQuantity(deductions), prior.state.depositAmount.token))]
  {
    SplitExactWhenBounded(prior.state.depositAmount, deductions);
  }

  /** The transaction the proposal becomes once the cash spend has added its
      inputs, outputs and commands. */
  function WithCash(
    prior: StateAndRef, p: Proposal,
    cashInputs: seq<LedgerState>, cashOutputs: seq<LedgerState>,
    cashCommands: seq<CommandEntry<DepositContract.DepositCommand>>): DepositContract.DepositTransaction
  {
    Transaction(
      [DepositOf(prior.state)] + cashInputs,
      seq(|p.outputs|, i requires 0 <= i < |p.outputs| => DepositOf(p.outputs[i])) + cashOutputs,
      [p.command] + cashCommands)
  }

  /** The deposit contract accepts the arbitration transaction whatever cash
      the spend adds, as long as the spend adds no deposit command: no rule
      inspects `Arbitrate`. */
  lemma {:induction false} ProposalAcceptedByContract(
    prior: StateAndRef, deductions: seq<ArbitratorDeduction>, now: Instant,
    cashInputs: seq<LedgerState>, cashOutputs: seq<LedgerState>,
    cashCommands: seq<CommandEntry<DepositContract.DepositCommand>>)
    requires Propose(prior, deductions, now).Success?
    requires forall k | 0 <= k < |cashCommands| :: cashCommands[k].Foreign?
    ensures DepositContract.Verify(WithCash(prior, Propose(prior, deductions, now).value, cashInputs, cashOutputs, cashCommands)).Accepted?
    ensures DepositContract.VerifyCorrected(WithCash(prior, Propose(prior, deductions, now).value, cashInputs, cashOutputs, cashCommands)).Accepted?
  {
    var p := Propose(prior, deductions, now).value;
    var tx := WithCash(prior, p, cashInputs, cashOutputs, cashCommands);
    SelectedAppend([p.command], cashCommands);
    SelectedOfForeign(cashCommands);
    assert [p.command][1..] == [];
    assert Selected(tx.commands) == [DepositContract.Arbitrate(prior.state.propertyId)];
    DepositContract.UnruledCommandsAccepted(tx, DepositContract.Arbitrate(prior.state.propertyId));
  }
}

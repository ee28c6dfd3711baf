/** The deposit record, its deductions, and the two structural comparisons the
    contract rules are written in: "equal except a named set of fields" on
    records and "contains all, ignoring a named set of fields" on deduction
    lists. */
module Deposits {

  datatype Option<+T> = None | Some(value: T)

  /** The outcome of an operation that throws in the original. */
  datatype Result<+T, +E> = Success(value: T) | Failure(error: E)

  /** Corda amounts are signed 64-bit quantities that may never be negative. */
  const LONG_MAX: int := 0x7FFF_FFFF_FFFF_FFFF
  type Quantity = q: int | 0 <= q <= LONG_MAX

  datatype Currency = Currency(code: string)
  datatype Amount = Amount(quantity: Quantity, token: Currency)

  datatype PublicKey = PublicKey(encoded: string)
  /** A party is identified by its owning key alone: Corda's party equality
      compares owning keys, and no rule reads the X.500 name, so two parties
      with one key are one party here. */
  datatype Party = Party(owningKey: PublicKey)

  datatype SecureHash = SecureHash(hex: string)
  datatype UniqueIdentifier = UniqueIdentifier(id: string)
  datatype Instant = Instant(epochMillis: int)

  /** A deduction the landlord proposes or the tenant accepts. */
  datatype Deduction = Deduction(deductionReason: string, deductionAmount: Amount, evidence: SecureHash)

  /** A deduction decided by the arbitrating scheme. */
  datatype ArbitratorDeduction = ArbitratorDeduction(reason: string, amount: Amount)

  /** One version of the shared deposit record. */
  datatype DepositState = DepositState(
    linearId: UniqueIdentifier,
    depositAmount: Amount,
    landlord: Party,
    tenant: Party,
    issuer: Party,
    propertyId: string,
    inventory: SecureHash,
    amountDeposited: Option<Amount>,
    landlordDeductions: Option<seq<Deduction>>,
    tenantDeductions: Option<seq<Deduction>>,
    acceptedDeductions: Option<seq<Deduction>>,
    contestedDeductions: Option<seq<ArbitratorDeduction>>,
    refundedAt: Option<Instant>)

  /** The properties of a deposit record, as named in an exclusion set. */
  datatype Field =
    | LinearId | DepositAmount | Landlord | Tenant | Issuer | PropertyId | Inventory
    | AmountDeposited | LandlordDeductions | TenantDeductions | AcceptedDeductions
    | ContestedDeductions | RefundedAt

  const AllFields: seq<Field> :=
    [LinearId, DepositAmount, Landlord, Tenant, Issuer, PropertyId, Inventory,
     AmountDeposited, LandlordDeductions, TenantDeductions, AcceptedDeductions,
     ContestedDeductions, RefundedAt]

  lemma AllFieldsComplete(f: Field)
    ensures f in AllFields
  {
  }

  /** Whether `a` and `b` hold the same value in property `f`. */
  predicate SameField(a: DepositState, b: DepositState, f: Field)
  {
    match f
    case LinearId => a.linearId == b.linearId
    case DepositAmount => a.depositAmount == b.depositAmount
    case Landlord => a.landlord == b.landlord
    case Tenant => a.tenant == b.tenant
    case Issuer => a.issuer == b.issuer
    case PropertyId => a.propertyId == b.propertyId
    case Inventory => a.inventory == b.inventory
    case AmountDeposited => a.amountDeposited == b.amountDeposited
    case LandlordDeductions => a.landlordDeductions == b.landlordDeductions
    case TenantDeductions => a.tenantDeductions == b.tenantDeductions
    case AcceptedDeductions => a.acceptedDeductions == b.acceptedDeductions
    case ContestedDeductions => a.contestedDeductions == b.contestedDeductions
    case RefundedAt => a.refundedAt == b.refundedAt
  }

  /** Every property outside `excluded` is equal in `a` and `b`. */
  predicate IsEqualToExcluding(a: DepositState, b: DepositState, excluded: set<Field>)
  {
    forall f | f in AllFields && f !in excluded :: SameField(a, b, f)
  }

  /** `a` with every property named in `fields` taken from `b`: the reference
      meaning of "only these properties may change". */
  function Overwrite(a: DepositState, b: DepositState, fields: set<Field>): DepositState
  {
    DepositState(
      if LinearId in fields then b.linearId else a.linearId,
      if DepositAmount in fields then b.depositAmount else a.depositAmount,
      if Landlord in fields then b.landlord else a.landlord,
      if Tenant in fields then b.tenant else a.tenant,
      if Issuer in fields then b.issuer else a.issuer,
      if PropertyId in fields then b.propertyId else a.propertyId,
      if Inventory in fields then b.inventory else a.inventory,
      if AmountDeposited in fields then b.amountDeposited else a.amountDeposited,
      if LandlordDeductions in fields then b.landlordDeductions else a.landlordDeductions,
      if TenantDeductions in fields then b.tenantDeductions else a.tenantDeductions,
      if AcceptedDeductions in fields then b.acceptedDeductions else a.acceptedDeductions,
      if ContestedDeductions in fields then b.contestedDeductions else a.contestedDeductions,
      if RefundedAt in fields then b.refundedAt else a.refundedAt)
  }

  /** The comparison accepts exactly those pairs where `b` is `a` with only
      the excluded properties replaced. */
  lemma EqualExcludingIffOverwrite(a: DepositState, b: DepositState, excluded: set<Field>)
    ensures IsEqualToExcluding(a, b, excluded) <==> Overwrite(a, b, excluded) == b
  {
    if Overwrite(a, b, excluded) == b {
      forall f | f in AllFields && f !in excluded
        ensures SameField(a, b, f)
      {
        assert SameField(Overwrite(a, b, excluded), b, f);
      }
    } else {
      var f: Field :|
        f !in excluded && !SameField(a, b, f);
      AllFieldsComplete(f);
    }
  }

  /** Changing any single property outside the exclusion set is detected. */
  lemma PerturbedFieldDetected(a: DepositState, b: DepositState, excluded: set<Field>, f: Field)
    requires f !in excluded && !SameField(a, b, f)
    ensures !IsEqualToExcluding(a, b, excluded)
  {
    AllFieldsComplete(f);
  }

  /** Differences confined to the exclusion set are never detected. */
  lemma ExcludedChangesIgnored(a: DepositState, b: DepositState, excluded: set<Field>)
    requires forall f | f in AllFields && !SameField(a, b, f) :: f in excluded
    ensures IsEqualToExcluding(a, b, excluded)
    ensures Overwrite(a, b, excluded) == b
  {
    EqualExcludingIffOverwrite(a, b, excluded);
  }

  /** The properties of a deduction, as named in an exclusion set. */
  datatype DeductionField = DeductionReason | DeductionAmount | Evidence

  predicate DeductionEqualExcluding(a: Deduction, b: Deduction, excluded: set<DeductionField>)
  {
    && (DeductionReason in excluded || a.deductionReason == b.deductionReason)
    && (DeductionAmount in excluded || a.deductionAmount == b.deductionAmount)
    && (Evidence in excluded || a.evidence == b.evidence)
  }

  /** Some element of `proposed` equals `d` once the excluded properties are ignored. */
  predicate MatchedExcluding(proposed: seq<Deduction>, d: Deduction, excluded: set<DeductionField>)
  {
    exists i | 0 <= i < |proposed| :: DeductionEqualExcluding(proposed[i], d, excluded)
  }

  /** Every element of `claimed` matches some element of `proposed` once the
      excluded properties are ignored. */
  predicate ContainsAllExcluding(proposed: seq<Deduction>, claimed: seq<Deduction>, excluded: set<DeductionField>)
  {
    forall j | 0 <= j < |claimed| :: MatchedExcluding(proposed, claimed[j], excluded)
  }

  /** What a deduction says apart from its amount. */
  function Claim(d: Deduction): (string, SecureHash)
  {
    (d.deductionReason, d.evidence)
  }

  function Claims(ds: seq<Deduction>): set<(string, SecureHash)>
  {
    set d | d in ds :: Claim(d)
  }

  /** Ignoring the amount, containment is inclusion of the claim sets: the
      tenant can contest an amount but cannot add a reason or evidence. */
  lemma ContainsAllIgnoringAmountIffClaims(proposed: seq<Deduction>, claimed: seq<Deduction>)
    ensures ContainsAllExcluding(proposed, claimed, {DeductionAmount}) <==> Claims(claimed) <= Claims(proposed)
  {
    if ContainsAllExcluding(proposed, claimed, {DeductionAmount}) {
      forall c | c in Claims(claimed)
        ensures c in Claims(proposed)
      {
        var d :| d in claimed && Claim(d) == c;
        var j :| 0 <= j < |claimed| && claimed[j] == d;
        var i :| 0 <= i < |proposed| && DeductionEqualExcluding(proposed[i], claimed[j], {DeductionAmount});
        assert Claim(proposed[i]) == c;
      }
    }
    if Claims(claimed) <= Claims(proposed) {
      forall j | 0 <= j < |claimed|
        ensures MatchedExcluding(proposed, claimed[j], {DeductionAmount})
      {
        assert Claim(claimed[j]) in Claims(claimed);
        var p :| p in proposed && Claim(p) == Claim(claimed[j]);
        var i :| 0 <= i < |proposed| && proposed[i] == p;
        assert DeductionEqualExcluding(proposed[i], claimed[j], {DeductionAmount});
      }
    }
  }

  /** A tenant list that revises only the amounts of the landlord's list,
      position by position, is accepted by the containment check. */
  lemma RevisedAmountsContained(proposed: seq<Deduction>, claimed: seq<Deduction>)
    requires |proposed| == |claimed|
    requires forall k | 0 <= k < |claimed| :: proposed[k].(deductionAmount := claimed[k].deductionAmount) == claimed[k]
    ensures ContainsAllExcluding(proposed, claimed, {DeductionAmount})
  {
    forall j | 0 <= j < |claimed|
      ensures MatchedExcluding(proposed, claimed[j], {DeductionAmount})
    {
      assert proposed[j].(deductionAmount := claimed[j].deductionAmount) == claimed[j];
      assert DeductionEqualExcluding(proposed[j], claimed[j], {DeductionAmount});
    }
  }

  /** A claimed deduction whose reason appears nowhere in the proposed list
      fails the containment check. */
  lemma FabricatedReasonRejected(proposed: seq<Deduction>, claimed: seq<Deduction>, j: nat)
    requires j < |claimed|
    requires forall i | 0 <= i < |proposed| :: proposed[i].deductionReason != claimed[j].deductionReason
    ensures !ContainsAllExcluding(proposed, claimed, {DeductionAmount})
  {
    assert !MatchedExcluding(proposed, claimed[j], {DeductionAmount});
  }
}

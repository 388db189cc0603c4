/** The expected-distribution table: a waterfall of auction proceeds in three stages. The functions
    here specify one run, stage by stage; DistributionEngine is the engine's own loop structure. */
module Distribution {
  import opened Collections
  import opened RightsTypes
  import opened SmallDeposit
  import opened TenantPriority

  /** In force for sale decisions from this date on (a decision date that is absent counts as one). */
  const PROPERTY_TAX_TENANT_RELIEF_FROM: Date := 20230401

  datatype ClaimantKind = SmallDepositTenant | PriorityTenant | RightHolder | TaxAuthority

  datatype Entry = Entry(claimantId: string, kind: ClaimantKind, paid: int)

  datatype PriorityClaim =
    PriorityClaim(claimantId: string, kind: ClaimantKind, priorityDate: Date, remainingClaim: int)

  datatype TenantOutcome =
    TenantOutcome(tenantId: string, hasPriority: bool, totalReceived: int, assumedAmount: int)

  datatype DistributionError =
    | NoMortgageReferenceDate
    | NoSmallDepositRule
    | DepositTrancheMismatch(tenantId: string, sum: int, depositAmount: int)

  datatype DistributionResult = DistributionResult(
    entries: seq<Entry>,
    remainingAfterCosts: int,
    remainingAfterAll: int,
    outcomes: seq<TenantOutcome>,
    unknownAmountTaxClaimCount: int)

  datatype Case = Case(
    saleAmount: int,
    auctionCost: int,
    rights: seq<RegisteredRight>,
    tenants: seq<Tenant>,
    taxes: seq<TaxClaim>,
    region: RegionTier,
    baselineDate: Date,
    deadline: Date,
    saleDecisionDate: Option<Date>)
  {
    function RemainingAfterCosts(): nat {
      if saleAmount - auctionCost < 0 then 0 else saleAmount - auctionCost
    }

    predicate ReliefApplies() {
      saleDecisionDate.None? || saleDecisionDate.value >= PROPERTY_TAX_TENANT_RELIEF_FROM
    }

    function Analysed(): map<string, TenantPriorityResult> {
      AnalysesOf(tenants, baselineDate, deadline)
    }

    /** The analysis kept under the tenant's id: of tenants that share one, the last. */
    function PriorityOf(tenant: Tenant): TenantPriorityResult {
      if tenant.id in Analysed() then Analysed()[tenant.id] else AnalyzeTenantPriority(tenant, baselineDate, deadline)
    }

    function Participants(): seq<Tenant> {
      ParticipantsOf(tenants, Analysed())
    }
  }

  function AnalysesOf(tenants: seq<Tenant>, baselineDate: Date, deadline: Date): map<string, TenantPriorityResult> {
    if tenants == [] then map[]
    else
      var last := tenants[|tenants| - 1];
      AnalysesOf(tenants[..|tenants| - 1], baselineDate, deadline)[
        last.id := AnalyzeTenantPriority(last, baselineDate, deadline)]
  }

  predicate TakesPart(tenant: Tenant, analysed: map<string, TenantPriorityResult>) {
    tenant.id in analysed && analysed[tenant.id].distributionDemandEffective
  }

  function ParticipantsOf(tenants: seq<Tenant>, analysed: map<string, TenantPriorityResult>): seq<Tenant> {
    if tenants == [] then []
    else
      (if TakesPart(tenants[0], analysed) then [tenants[0]] else []) + ParticipantsOf(tenants[1..], analysed)
  }

  /** Where the money is: what is left, what each of the three maps holds, and the entry log. */
  datatype Book = Book(
    remaining: int,
    small: map<string, int>,
    relief: map<string, int>,
    priority: map<string, int>,
    entries: seq<Entry>)
  {
    function Offset(id: string): int {
      Got(small, id) + Got(relief, id)
    }

    function Received(id: string): int {
      Got(small, id) + Got(relief, id) + Got(priority, id)
    }

    function Pay(id: string, kind: ClaimantKind, paid: int): Book {
      this.(remaining := remaining - paid, entries := entries + [Entry(id, kind, paid)])
    }

    function PayAsSmallDeposit(id: string, paid: int): Book {
      Pay(id, SmallDepositTenant, paid).(small := small[id := paid])
    }

    function PayAsRelief(id: string, paid: int): Book {
      Pay(id, PriorityTenant, paid).(relief := relief[id := Got(relief, id) + paid])
    }

    function PayInOrder(id: string, kind: ClaimantKind, paid: int): Book {
      Pay(id, kind, paid).(priority := priority[id := Got(priority, id) + paid])
    }
  }

  function Got(m: map<string, int>, id: string): int {
    if id in m then m[id] else 0
  }

  // ---- stage 1: small deposits, pro rata under the statutory ceiling

  datatype SmallClaim = SmallClaim(tenant: Tenant, entitlement: nat)

  function SmallClaimsOf(tenants: seq<Tenant>, rule: Rule, region: RegionTier): seq<SmallClaim> {
    if tenants == [] then []
    else
      (if IsEligible(tenants[0], rule, region)
       then [SmallClaim(tenants[0], PriorityRepayment(tenants[0], rule, region))] else [])
      + SmallClaimsOf(tenants[1..], rule, region)
  }

  function TotalEntitlement(claims: seq<SmallClaim>): nat {
    if claims == [] then 0 else claims[0].entitlement + TotalEntitlement(claims[1..])
  }

  /** floor(entitlement * min(1, budget / total)) */
  function Share(entitlement: nat, budget: nat, total: nat): nat
    requires total > 0
  {
    if total <= budget then entitlement else entitlement * budget / total
  }

  function PaySmall(b: Book, claims: seq<SmallClaim>, budget: nat, total: nat): Book
    requires total > 0
    decreases |claims|
  {
    if claims == [] then b
    else
      var id, paid := claims[0].tenant.id, Share(claims[0].entitlement, budget, total);
      PaySmall(b.PayAsSmallDeposit(id, paid), claims[1..], budget, total)
  }

  function OpeningBook(cash: int): Book {
    Book(cash, map[], map[], map[], [])
  }

  function StageOne(cash: nat, claims: seq<SmallClaim>): Book {
    if TotalEntitlement(claims) > 0
    then PaySmall(OpeningBook(cash), claims, cash / 2, TotalEntitlement(claims))
    else OpeningBook(cash)
  }

  // ---- stage 2: property taxes, with relief for tenants of an earlier fixed date

  function StatutoryDateOf(claim: TaxClaim): Date { claim.statutoryDate }

  predicate IsKnownPropertyTax(claim: TaxClaim) { claim.isPropertyTax && claim.amount.Some? }

  function PropertyTaxes(taxes: seq<TaxClaim>): seq<TaxClaim> {
    StableSort(Filter(taxes, IsKnownPropertyTax), StatutoryDateOf)
  }

  function AmountOf(claim: TaxClaim): nat {
    if claim.amount.Some? then claim.amount.value else 0
  }

  /** What one tenant gets out of a tax dated `taxDate` that may still claim `claimLeft`. */
  function Diverted(b: Book, t: Tenant, taxDate: Date, claimLeft: int): int {
    var tenantClaim := t.depositAmount - b.Offset(t.id);
    if t.fixedDate.None? || t.fixedDate.value >= taxDate || tenantClaim <= 0 then 0
    else Min(Min(tenantClaim, claimLeft), b.remaining)
  }

  function Divert(b: Book, t: Tenant, paid: int): Book {
    if paid == 0 then b else b.PayAsRelief(t.id, paid)
  }

  /** Returns the book after relief and what the tax may still claim. */
  function PayRelief(b: Book, tenants: seq<Tenant>, taxDate: Date, claimLeft: int): (Book, int)
    decreases |tenants|
  {
    if tenants == [] || claimLeft <= 0 || b.remaining <= 0 then (b, claimLeft)
    else
      var paid := Diverted(b, tenants[0], taxDate, claimLeft);
      PayRelief(Divert(b, tenants[0], paid), tenants[1..], taxDate, claimLeft - paid)
  }

  function PayTax(b: Book, claim: TaxClaim, tenants: seq<Tenant>, relief: bool): Book {
    var (afterRelief, claimLeft) :=
      if relief then PayRelief(b, tenants, claim.statutoryDate, AmountOf(claim)) else (b, AmountOf(claim));
    var paid := Min(afterRelief.remaining, claimLeft);
    if paid > 0 then afterRelief.Pay(claim.id, TaxAuthority, paid) else afterRelief
  }

  function PayTaxes(b: Book, claims: seq<TaxClaim>, tenants: seq<Tenant>, relief: bool): Book
    decreases |claims|
  {
    if claims == [] || b.remaining <= 0 then b
    else PayTaxes(PayTax(b, claims[0], tenants, relief), claims[1..], tenants, relief)
  }

  // ---- stage 3: everything else, in date order

  predicate IsDated(tranche: DepositTranche) { tranche.fixedDate.Some? }

  predicate IsUndated(tranche: DepositTranche) { tranche.fixedDate.None? }

  function FixedDateOf(tranche: DepositTranche): Date {
    if tranche.fixedDate.Some? then tranche.fixedDate.value else 0
  }

  /** Earliest fixed date first, undated shares last, otherwise in the given order. */
  function SortTranches(tranches: seq<DepositTranche>): seq<DepositTranche> {
    StableSort(Filter(tranches, IsDated), FixedDateOf) + Filter(tranches, IsUndated)
  }

  predicate TranchesMatch(tenant: Tenant) {
    tenant.depositTranches == [] || TrancheTotal(tenant.depositTranches) == tenant.depositAmount
  }

  function TranchesOf(tenant: Tenant): seq<DepositTranche> {
    if tenant.depositTranches == [] then [DepositTranche(tenant.depositAmount, tenant.fixedDate)]
    else SortTranches(tenant.depositTranches)
  }

  function DepositTranchesOf(tenant: Tenant): Result<seq<DepositTranche>, DistributionError> {
    if TranchesMatch(tenant) then Success(TranchesOf(tenant))
    else Failure(DepositTrancheMismatch(tenant.id, TrancheTotal(tenant.depositTranches), tenant.depositAmount))
  }

  /** Earlier money is set off against the earliest shares; undated shares claim nothing. */
  function TrancheClaims(id: string, tranches: seq<DepositTranche>, possessionRightDate: Date, toOffset: int)
    : seq<PriorityClaim>
  {
    if tranches == [] then []
    else
      var offset := Min(toOffset, tranches[0].amount);
      var left := tranches[0].amount - offset;
      var rest := TrancheClaims(id, tranches[1..], possessionRightDate, toOffset - offset);
      if left <= 0 || tranches[0].fixedDate.None? then rest
      else
        var date := Max(tranches[0].fixedDate.value, possessionRightDate);
        [PriorityClaim(id, PriorityTenant, date, left)] + rest
  }

  function TenantClaims(c: Case, tenants: seq<Tenant>, b: Book): seq<PriorityClaim> {
    if tenants == [] then []
    else
      TrancheClaims(tenants[0].id, TranchesOf(tenants[0]), c.PriorityOf(tenants[0]).possessionRightDate,
                    b.Offset(tenants[0].id))
      + TenantClaims(c, tenants[1..], b)
  }

  function RightClaims(rights: seq<RegisteredRight>): seq<PriorityClaim> {
    if rights == [] then []
    else
      (if rights[0].amount.Some?
       then [PriorityClaim(rights[0].id, RightHolder, rights[0].receivedDate, rights[0].amount.value)] else [])
      + RightClaims(rights[1..])
  }

  function OrdinaryTaxClaims(taxes: seq<TaxClaim>): seq<PriorityClaim> {
    if taxes == [] then []
    else
      (if !taxes[0].isPropertyTax && taxes[0].amount.Some?
       then [PriorityClaim(taxes[0].id, TaxAuthority, taxes[0].statutoryDate, taxes[0].amount.value)] else [])
      + OrdinaryTaxClaims(taxes[1..])
  }

  function PriorityDateOf(claim: PriorityClaim): Date { claim.priorityDate }

  function UnsortedClaims(c: Case, b: Book): seq<PriorityClaim> {
    TenantClaims(c, c.Participants(), b) + RightClaims(c.rights) + OrdinaryTaxClaims(c.taxes)
  }

  function PriorityClaims(c: Case, b: Book): seq<PriorityClaim> {
    StableSort(UnsortedClaims(c, b), PriorityDateOf)
  }

  function PayClaims(b: Book, claims: seq<PriorityClaim>): Book
    decreases |claims|
  {
    if claims == [] || b.remaining <= 0 then b
    else
      var claim := claims[0];
      var paid := Min(b.remaining, claim.remainingClaim);
      PayClaims(b.PayInOrder(claim.claimantId, claim.kind, paid), claims[1..])
  }

  // ---- the whole run

  function OutcomeOf(c: Case, tenant: Tenant, b: Book): TenantOutcome {
    var hasPriority := c.PriorityOf(tenant).hasPriority;
    TenantOutcome(tenant.id, hasPriority, b.Received(tenant.id),
                  if hasPriority then Max(0, tenant.depositAmount - b.Received(tenant.id)) else 0)
  }

  function Outcomes(c: Case, tenants: seq<Tenant>, b: Book): (r: seq<TenantOutcome>)
    ensures |r| == |tenants|
    ensures forall i :: 0 <= i < |tenants| ==> r[i] == OutcomeOf(c, tenants[i], b)
  {
    if tenants == [] then [] else [OutcomeOf(c, tenants[0], b)] + Outcomes(c, tenants[1..], b)
  }

  function FirstMismatch(tenants: seq<Tenant>): Option<DistributionError> {
    if tenants == [] then None
    else if DepositTranchesOf(tenants[0]).Failure? then Some(DepositTranchesOf(tenants[0]).error)
    else FirstMismatch(tenants[1..])
  }

  predicate IsUnknownTax(claim: TaxClaim) { claim.amount.None? }

  function SmallClaimsIn(c: Case): seq<SmallClaim> {
    var reference := ResolveMortgageReferenceDate(c.rights);
    if reference.None? || FindApplicableRule(reference.value).None? then []
    else SmallClaimsOf(c.Participants(), FindApplicableRule(reference.value).value, c.region)
  }

  /** The books after stage 1, after stage 2 and at the end. */
  function BookOne(c: Case): Book {
    StageOne(c.RemainingAfterCosts(), SmallClaimsIn(c))
  }

  function BookTwo(c: Case): Book {
    PayTaxes(BookOne(c), PropertyTaxes(c.taxes), c.Participants(), c.ReliefApplies())
  }

  function BookThree(c: Case): Book {
    PayClaims(BookTwo(c), PriorityClaims(c, BookTwo(c)))
  }

  function ErrorOf(c: Case): Option<DistributionError> {
    var reference := ResolveMortgageReferenceDate(c.rights);
    if reference.None? then Some(NoMortgageReferenceDate)
    else if c.Participants() != [] && FindApplicableRule(reference.value).None? then Some(NoSmallDepositRule)
    else FirstMismatch(c.Participants())
  }

  function Distribute(c: Case): Result<DistributionResult, DistributionError> {
    if ErrorOf(c).Some? then Failure(ErrorOf(c).value)
    else
      Success(DistributionResult(
                BookThree(c).entries, c.RemainingAfterCosts(), BookThree(c).remaining,
                Outcomes(c, c.tenants, BookThree(c)), |Filter(c.taxes, IsUnknownTax)|))
  }
}

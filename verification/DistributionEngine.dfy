/** The engine itself: one mutable remainder, three maps and an entry log, stage by stage. */
module DistributionEngine {
  import opened Collections
  import opened RightsTypes
  import opened SmallDeposit
  import opened Distribution

  method SmallDepositStage(cash: nat, claims: seq<SmallClaim>)
    returns (remaining: int, received: map<string, int>, entries: seq<Entry>)
    ensures Book(remaining, received, map[], map[], entries) == StageOne(cash, claims)
  {
    remaining, received, entries := cash, map[], [];
    var total := TotalEntitlement(claims);
    if total > 0 {
      var ceiling := cash / 2;
      var budget := if remaining < ceiling then remaining else ceiling;
      for i := 0 to |claims|
        invariant PaySmall(Book(remaining, received, map[], map[], entries), claims[i..], budget, total)
                  == StageOne(cash, claims)
      {
        var paid := Share(claims[i].entitlement, budget, total);
        received := received[claims[i].tenant.id := paid];
        remaining := remaining - paid;
        entries := entries + [Entry(claims[i].tenant.id, SmallDepositTenant, paid)];
        assert claims[i..][1..] == claims[i + 1..];
      }
    }
  }

  predicate Skipped(b: Book, t: Tenant, taxDate: Date) {
    t.fixedDate.None? || t.fixedDate.value >= taxDate || t.depositAmount - b.Offset(t.id) <= 0
  }

  /** Unfolds PayRelief by one tenant. */
  lemma ReliefStep(b: Book, tenants: seq<Tenant>, taxDate: Date, claimLeft: int)
    ensures tenants == [] || claimLeft <= 0 || b.remaining <= 0 ==>
              PayRelief(b, tenants, taxDate, claimLeft) == (b, claimLeft)
    ensures tenants != [] && 0 < claimLeft && 0 < b.remaining && Skipped(b, tenants[0], taxDate) ==>
              PayRelief(b, tenants, taxDate, claimLeft) == PayRelief(b, tenants[1..], taxDate, claimLeft)
    ensures tenants != [] && 0 < claimLeft && 0 < b.remaining && !Skipped(b, tenants[0], taxDate) ==>
              var t := tenants[0];
              var paid := Min(Min(t.depositAmount - b.Offset(t.id), claimLeft), b.remaining);
              PayRelief(b, tenants, taxDate, claimLeft)
              == PayRelief(b.PayAsRelief(t.id, paid), tenants[1..], taxDate, claimLeft - paid)
  {
  }

  /** One tax's diversion to tenants: the inner loop of the property-tax stage. */
  method ReliefLoop(b: Book, tenants: seq<Tenant>, taxDate: Date, claim: int)
    returns (remaining: int, relief: map<string, int>, entries: seq<Entry>, claimLeft: int)
    ensures (Book(remaining, b.small, relief, b.priority, entries), claimLeft) == PayRelief(b, tenants, taxDate, claim)
  {
    hide PayRelief;
    remaining, relief, entries, claimLeft := b.remaining, b.relief, b.entries, claim;
    var i := 0;
    while i < |tenants|
      invariant 0 <= i <= |tenants|
      invariant PayRelief(Book(remaining, b.small, relief, b.priority, entries), tenants[i..], taxDate, claimLeft)
                == PayRelief(b, tenants, taxDate, claim)
    {
      ReliefStep(Book(remaining, b.small, relief, b.priority, entries), tenants[i..], taxDate, claimLeft);
      if claimLeft <= 0 || remaining <= 0 {
        return;
      }
      var tenant := tenants[i];
      assert tenants[i..][1..] == tenants[i + 1..];
      i := i + 1;
      if tenant.fixedDate.None? || tenant.fixedDate.value >= taxDate {
        continue;
      }
      var tenantClaim := tenant.depositAmount - (Got(b.small, tenant.id) + Got(relief, tenant.id));
      if tenantClaim <= 0 {
        continue;
      }
      var paid := Min(Min(tenantClaim, claimLeft), remaining);
      claimLeft := claimLeft - paid;
      remaining := remaining - paid;
      relief := relief[tenant.id := Got(relief, tenant.id) + paid];
      entries := entries + [Entry(tenant.id, PriorityTenant, paid)];
    }
    ReliefStep(Book(remaining, b.small, relief, b.priority, entries), tenants[i..], taxDate, claimLeft);
  }

  method PropertyTaxStage(b: Book, taxes: seq<TaxClaim>, tenants: seq<Tenant>, reliefApplies: bool)
    returns (remaining: int, relief: map<string, int>, entries: seq<Entry>)
    ensures Book(remaining, b.small, relief, b.priority, entries) == PayTaxes(b, taxes, tenants, reliefApplies)
  {
    remaining, relief, entries := b.remaining, b.relief, b.entries;
    for i := 0 to |taxes|
      invariant PayTaxes(Book(remaining, b.small, relief, b.priority, entries), taxes[i..], tenants, reliefApplies)
                == PayTaxes(b, taxes, tenants, reliefApplies)
    {
      if remaining <= 0 {
        break;
      }
      assert taxes[i..][1..] == taxes[i + 1..];
      var claimLeft: int := AmountOf(taxes[i]);
      if reliefApplies {
        remaining, relief, entries, claimLeft :=
          ReliefLoop(Book(remaining, b.small, relief, b.priority, entries), tenants, taxes[i].statutoryDate, claimLeft);
      }
      var paidToTax := Min(remaining, claimLeft);
      if paidToTax > 0 {
        remaining := remaining - paidToTax;
        entries := entries + [Entry(taxes[i].id, TaxAuthority, paidToTax)];
      }
    }
  }

  /** The claims one tenant still has after earlier money is set off against the earliest shares. */
  lemma SharesStep(id: string, tranches: seq<DepositTranche>, possession: Date, toOffset: int)
    requires tranches != []
    ensures var offset := Min(toOffset, tranches[0].amount);
            var left := tranches[0].amount - offset;
            TrancheClaims(id, tranches, possession, toOffset)
            == (if left <= 0 || tranches[0].fixedDate.None? then []
                else [PriorityClaim(id, PriorityTenant, Max(tranches[0].fixedDate.value, possession), left)])
               + TrancheClaims(id, tranches[1..], possession, toOffset - offset)
  {
  }

  lemma NoShares(id: string, possession: Date, toOffset: int)
    ensures TrancheClaims(id, [], possession, toOffset) == []
  {
  }

  method TenantShares(id: string, tranches: seq<DepositTranche>, possessionRightDate: Date, received: int)
    returns (claims: seq<PriorityClaim>)
    ensures claims == TrancheClaims(id, tranches, possessionRightDate, received)
  {
    hide TrancheClaims;
    claims := [];
    var toOffset := received;
    assert tranches[0..] == tranches;
    for i := 0 to |tranches|
      invariant claims + TrancheClaims(id, tranches[i..], possessionRightDate, toOffset)
                == TrancheClaims(id, tranches, possessionRightDate, received)
    {
      var tranche := tranches[i];
      assert tranches[i..][1..] == tranches[i + 1..] && tranches[i..][0] == tranche;
      SharesStep(id, tranches[i..], possessionRightDate, toOffset);
      var offset := Min(toOffset, tranche.amount);
      toOffset := toOffset - offset;
      var remainingClaim := tranche.amount - offset;
      if remainingClaim <= 0 || tranche.fixedDate.None? {
        continue;
      }
      var fixedDate := tranche.fixedDate.value;
      var date := if fixedDate > possessionRightDate then fixedDate else possessionRightDate;
      claims := claims + [PriorityClaim(id, PriorityTenant, date, remainingClaim)];
    }
    assert tranches[|tranches|..] == [];
    NoShares(id, possessionRightDate, toOffset);
  }

  lemma PushOne(pushed: seq<PriorityClaim>, next: seq<PriorityClaim>, rest: seq<PriorityClaim>)
    ensures (pushed + next) + rest == pushed + (next + rest)
  {
  }

  method CollectTenantClaims(c: Case, b: Book) returns (result: Result<seq<PriorityClaim>, DistributionError>)
    ensures result == if FirstMismatch(c.Participants()).Some? then Failure(FirstMismatch(c.Participants()).value)
                      else Success(TenantClaims(c, c.Participants(), b))
  {
    var claims: seq<PriorityClaim> := [];
    var participants := c.Participants();
    for i := 0 to |participants|
      invariant FirstMismatch(participants[i..]) == FirstMismatch(participants)
      invariant claims + TenantClaims(c, participants[i..], b) == TenantClaims(c, participants, b)
    {
      var tenant := participants[i];
      assert participants[i..][1..] == participants[i + 1..];
      var tranches := DepositTranchesOf(tenant);
      if tranches.Failure? {
        return Failure(tranches.error);
      }
      var shares := TenantShares(tenant.id, tranches.value, c.PriorityOf(tenant).possessionRightDate,
          b.Offset(tenant.id));
      PushOne(claims, shares, TenantClaims(c, participants[i + 1..], b));
      claims := claims + shares;
    }
    assert participants[|participants|..] == [] && claims + [] == claims;
    assert TenantClaims(c, [], b) == [] && FirstMismatch([]) == None;
    result := Success(claims);
  }

  method PushRightClaims(pushed: seq<PriorityClaim>, rights: seq<RegisteredRight>) returns (claims: seq<PriorityClaim>)
    ensures claims == pushed + RightClaims(rights)
  {
    claims := pushed;
    for i := 0 to |rights|
      invariant claims + RightClaims(rights[i..]) == pushed + RightClaims(rights)
    {
      var right := rights[i];
      assert rights[i..][1..] == rights[i + 1..];
      if right.amount.None? {
        continue;
      }
      var claim := PriorityClaim(right.id, RightHolder, right.receivedDate, right.amount.value);
      PushOne(claims, [claim], RightClaims(rights[i + 1..]));
      claims := claims + [claim];
    }
  }

  method PushTaxClaims(pushed: seq<PriorityClaim>, taxes: seq<TaxClaim>) returns (claims: seq<PriorityClaim>)
    ensures claims == pushed + OrdinaryTaxClaims(taxes)
  {
    claims := pushed;
    for i := 0 to |taxes|
      invariant claims + OrdinaryTaxClaims(taxes[i..]) == pushed + OrdinaryTaxClaims(taxes)
    {
      var tax := taxes[i];
      assert taxes[i..][1..] == taxes[i + 1..];
      if tax.isPropertyTax || tax.amount.None? {
        continue;
      }
      var claim := PriorityClaim(tax.id, TaxAuthority, tax.statutoryDate, tax.amount.value);
      PushOne(claims, [claim], OrdinaryTaxClaims(taxes[i + 1..]));
      claims := claims + [claim];
    }
  }

  method PriorityStage(b: Book, claims: seq<PriorityClaim>)
    returns (remaining: int, received: map<string, int>, entries: seq<Entry>)
    ensures Book(remaining, b.small, b.relief, received, entries) == PayClaims(b, claims)
  {
    remaining, received, entries := b.remaining, b.priority, b.entries;
    for i := 0 to |claims|
      invariant PayClaims(Book(remaining, b.small, b.relief, received, entries), claims[i..]) == PayClaims(b, claims)
    {
      if remaining <= 0 {
        break;
      }
      assert claims[i..][1..] == claims[i + 1..];
      var claim := claims[i];
      var paid := Min(remaining, claim.remainingClaim);
      remaining := remaining - paid;
      received := received[claim.claimantId := Got(received, claim.claimantId) + paid];
      entries := entries + [Entry(claim.claimantId, claim.kind, paid)];
    }
  }

  method TenantOutcomes(c: Case, b: Book) returns (outcomes: seq<TenantOutcome>)
    ensures outcomes == Outcomes(c, c.tenants, b)
  {
    outcomes := [];
    for i := 0 to |c.tenants|
      invariant |outcomes| == i
      invariant forall j :: 0 <= j < i ==> outcomes[j] == OutcomeOf(c, c.tenants[j], b)
    {
      var tenant := c.tenants[i];
      var totalReceived := Got(b.small, tenant.id) + Got(b.relief, tenant.id) + Got(b.priority, tenant.id);
      var hasPriority := c.PriorityOf(tenant).hasPriority;
      var assumed := if hasPriority then Max(0, tenant.depositAmount - totalReceived) else 0;
      outcomes := outcomes + [TenantOutcome(tenant.id, hasPriority, totalReceived, assumed)];
    }
  }

  method ComputeDistribution(c: Case) returns (result: Result<DistributionResult, DistributionError>)
    ensures result == Distribute(c)
  {
    hide StageOne, PropertyTaxes, UnsortedClaims, FirstMismatch, SmallClaimsIn, Filter, StableSort, Outcomes, Got;
    hide PaySmall, PayTaxes, PayClaims, TenantClaims, RightClaims, OrdinaryTaxClaims, ParticipantsOf;
    var remainingAfterCosts := Max(0, c.saleAmount - c.auctionCost);
    var reference := ResolveMortgageReferenceDate(c.rights);
    if reference.None? {
      return Failure(NoMortgageReferenceDate);
    }
    var participants := c.Participants();
    if participants != [] && FindApplicableRule(reference.value).None? {
      return Failure(NoSmallDepositRule);
    }
    var remaining, small, entries := SmallDepositStage(remainingAfterCosts, SmallClaimsIn(c));

    var relief: map<string, int>;
    remaining, relief, entries := PropertyTaxStage(
      Book(remaining, small, map[], map[], entries), PropertyTaxes(c.taxes), participants, c.ReliefApplies());

    var book := Book(remaining, small, relief, map[], entries);
    var tenantClaims := CollectTenantClaims(c, book);
    if tenantClaims.Failure? {
      return Failure(tenantClaims.error);
    }
    var claims := PushRightClaims(tenantClaims.value, c.rights);
    claims := PushTaxClaims(claims, c.taxes);
    UnsortedIs(c, book);

    var priority: map<string, int>;
    remaining, priority, entries := PriorityStage(book, StableSort(claims, PriorityDateOf));
    assert Book(remaining, small, relief, priority, entries) == BookThree(c);
    var outcomes := TenantOutcomes(c, Book(remaining, small, relief, priority, entries));
    result := Success(DistributionResult(
      entries, remainingAfterCosts, remaining, outcomes, |Filter(c.taxes, IsUnknownTax)|));
  }

  lemma UnsortedIs(c: Case, b: Book)
    ensures UnsortedClaims(c, b)
            == TenantClaims(c, c.Participants(), b) + RightClaims(c.rights) + OrdinaryTaxClaims(c.taxes)
  {
  }
}

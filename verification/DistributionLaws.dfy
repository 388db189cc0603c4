/** Laws of a whole run: conservation, no overpayment, the priority of earlier tenants under relief, and
    the order of the last stage. */
module DistributionLaws {
  import opened Collections
  import opened RightsTypes
  import opened SmallDeposit
  import opened Distribution
  import opened DistributionStages

  /** Every won is accounted for: the log plus what is left is the price less the costs, and nothing is overdrawn. */
  lemma Conservation(c: Case)
    requires Distribute(c).Success?
    ensures var r := Distribute(c).value;
            && r.remainingAfterCosts == Max(0, c.saleAmount - c.auctionCost)
            && TotalPaid(r.entries) + r.remainingAfterAll == r.remainingAfterCosts
            && 0 <= r.remainingAfterAll
  {
    hide StageOne, PayTaxes, PayClaims, TotalPaid, ErrorOf, PriorityClaims, PropertyTaxes, SmallClaimsIn,
         ParticipantsOf, AnalysesOf, TaxTotal, TotalEntitlement, Outcomes, Filter;
    StageOneTotal(c.RemainingAfterCosts(), SmallClaimsIn(c));
    PayTaxesTotals(BookOne(c), PropertyTaxes(c.taxes), c.Participants(), c.ReliefApplies());
    PayClaimsTotals(BookTwo(c), PriorityClaims(c, BookTwo(c)));
  }

  ghost predicate OnTheBooks(b: Book, t: Tenant) {
    b.Received(t.id) == PaidTo(b.entries, t.id) && 0 <= b.Received(t.id) <= t.depositAmount
  }

  lemma NamesTenant(tenants: seq<Tenant>, t: Tenant)
    requires DistinctTenants(tenants) && t in tenants
    ensures Names(tenants, t)
  {
  }

  lemma ParticipantsName(c: Case, t: Tenant)
    requires DistinctTenants(c.tenants) && t in c.tenants
    ensures Names(c.Participants(), t)
    ensures t in c.Participants() <==> c.PriorityOf(t).distributionDemandEffective
  {
    var participants := c.Participants();
    OwnPriority(c, t);
    ParticipantsAreTenants(c.tenants, c.Analysed(), t);
    forall i | 0 <= i < |participants| && participants[i].id == t.id
      ensures participants[i] == t
    {
      ParticipantsAreTenants(c.tenants, c.Analysed(), participants[i]);
    }
  }

  lemma BookOneTo(c: Case, t: Tenant)
    requires DistinctTenants(c.tenants) && t in c.tenants
    ensures var b := BookOne(c);
            && OnTheBooks(b, t) && b.relief == map[] && b.priority == map[]
            && (t !in c.Participants() ==> b.Received(t.id) == 0)
  {
    var claims, cash := SmallClaimsIn(c), c.RemainingAfterCosts();
    SmallClaimsInCase(c);
    ParticipantsName(c, t);
    if TotalEntitlement(claims) > 0 {
      var budget, total := cash / 2, TotalEntitlement(claims);
      assert PaidTo(OpeningBook(cash).entries, t.id) == 0;
      hide PaidTo, ShareOf, Share, PaySmall, SharesTotal;
      PaySmallTo(OpeningBook(cash), claims, budget, total, t.id);
      PaySmallTotals(OpeningBook(cash), claims, budget, total);
      if k :| 0 <= k < |claims| && claims[k].tenant.id == t.id {
        ShareOfClaim(claims, budget, total, k);
        ShareAtMost(claims[k].entitlement, budget, total);
      } else {
        ShareOfNone(claims, budget, total, t.id);
      }
    }
  }

  lemma ShareAtMost(entitlement: nat, budget: nat, total: nat)
    requires total > 0
    ensures Share(entitlement, budget, total) <= entitlement
  {
    ShareIsFloor(entitlement, budget, total);
  }

  lemma PropertyTaxesAreTaxes(taxes: seq<TaxClaim>, x: TaxClaim)
    ensures x in PropertyTaxes(taxes) <==> x in taxes && IsKnownPropertyTax(x)
  {
    var known := Filter(taxes, IsKnownPropertyTax);
    FilterMember(taxes, IsKnownPropertyTax, x);
    StableSortSorts(known, StatutoryDateOf);
    assert x in PropertyTaxes(taxes) <==> x in multiset(PropertyTaxes(taxes));
    assert x in known <==> x in multiset(known);
  }

  lemma PropertyTaxesNotTenants(c: Case, t: Tenant)
    requires DistinctIds(c) && t in c.tenants
    ensures forall x :: x in PropertyTaxes(c.taxes) ==> x.id != t.id
  {
    forall x | x in PropertyTaxes(c.taxes)
      ensures x.id != t.id
    {
      PropertyTaxesAreTaxes(c.taxes, x);
      if x.id == t.id {
        var i :| 0 <= i < |c.tenants| && c.tenants[i] == t;
        assert HasTenant(c.tenants, x.id);
      }
    }
  }

  lemma BookTwoTo(c: Case, t: Tenant)
    requires DistinctIds(c) && t in c.tenants
    ensures var b := BookTwo(c);
            && OnTheBooks(b, t) && b.priority == map[]
            && 0 <= b.Offset(t.id) <= t.depositAmount
            && (t !in c.Participants() ==> b.Received(t.id) == 0)
  {
    BookOneTo(c, t);
    ParticipantsName(c, t);
    PropertyTaxesNotTenants(c, t);
    StageOneTotal(c.RemainingAfterCosts(), SmallClaimsIn(c));
    hide PaidTo, TotalPaid, StageOne, PayTax;
    PayTaxesTotals(BookOne(c), PropertyTaxes(c.taxes), c.Participants(), c.ReliefApplies());
    PayTaxesTo(BookOne(c), PropertyTaxes(c.taxes), c.Participants(), c.ReliefApplies(), t);
    if t !in c.Participants() {
      assert forall i :: 0 <= i < |c.Participants()| ==> c.Participants()[i].id != t.id;
      TaxesLeaveOthers(BookOne(c), PropertyTaxes(c.taxes), c.Participants(), c.ReliefApplies(), t.id);
    }
  }

  lemma {:induction false} TaxesLeaveOthers(b: Book, claims: seq<TaxClaim>, tenants: seq<Tenant>, relief: bool,
                                            id: string)
    requires forall i :: 0 <= i < |tenants| ==> tenants[i].id != id
    ensures PayTaxes(b, claims, tenants, relief).Offset(id) == b.Offset(id)
    decreases |claims|
  {
    if claims == [] || b.remaining <= 0 {
    } else {
      if relief {
        OthersReliefUntouched(b, tenants, claims[0].statutoryDate, AmountOf(claims[0]), id);
      }
      TaxesLeaveOthers(PayTax(b, claims[0], tenants, relief), claims[1..], tenants, relief, id);
    }
  }

  lemma ParticipantOffsets(c: Case)
    requires DistinctIds(c)
    ensures OffsetsNonNegative(c.Participants(), BookTwo(c))
    ensures DistinctTenants(c.Participants())
  {
    var participants := c.Participants();
    ParticipantsDistinct(c.tenants, c.Analysed());
    forall i | 0 <= i < |participants|
      ensures 0 <= BookTwo(c).Offset(participants[i].id)
    {
      ParticipantsAreTenants(c.tenants, c.Analysed(), participants[i]);
      BookTwoTo(c, participants[i]);
    }
  }

  /** All claims of one tenant in the last stage are the tenant's own shares. */
  lemma ClaimsOfTenant(c: Case, b: Book, t: Tenant)
    requires DistinctIds(c) && t in c.tenants
    requires OffsetsNonNegative(c.Participants(), b)
    ensures Claimed(PriorityClaims(c, b), t.id) 
            == if t in c.Participants() then Claimed(OwnClaims(c, t, b), t.id) else 0
    ensures NonNegativeClaims(PriorityClaims(c, b), t.id)
  {
    var tenantClaims, rights, taxes := TenantClaims(c, c.Participants(), b), RightClaims(c.rights),
        OrdinaryTaxClaims(c.taxes);
    var i :| 0 <= i < |c.tenants| && c.tenants[i] == t;
    assert HasTenant(c.tenants, t.id);
    ParticipantsDistinct(c.tenants, c.Analysed());
    ParticipantsName(c, t);
    TenantClaimsOf(c, c.Participants(), b, t);
    TenantClaimsShape(c, c.Participants(), b);
    RightClaimsShape(c.rights);
    OrdinaryTaxClaimsShape(c.taxes);
    NotClaimed(rights, t.id);
    NotClaimed(taxes, t.id);
    ClaimedAppend(tenantClaims, rights, t.id);
    ClaimedAppend(tenantClaims + rights, taxes, t.id);
    ClaimedSorted(UnsortedClaims(c, b), t.id);
    var sorted := PriorityClaims(c, b);
    forall k | 0 <= k < |sorted| && sorted[k].claimantId == t.id
      ensures 0 <= sorted[k].remainingClaim
    {
      SortedClaimsMember(UnsortedClaims(c, b), sorted[k]);
    }
  }

  lemma {:induction false} NoMismatch(tenants: seq<Tenant>)
    ensures FirstMismatch(tenants).None? <==> forall i :: 0 <= i < |tenants| ==> TranchesMatch(tenants[i])
  {
    if tenants != [] {
      NoMismatch(tenants[1..]);
      assert forall i :: 0 <= i < |tenants[1..]| ==> tenants[1..][i] == tenants[i + 1];
    }
  }

  lemma LastStageTo(c: Case, b: Book, t: Tenant)
    requires DistinctIds(c) && t in c.tenants
    requires FirstMismatch(c.Participants()).None?
    requires OffsetsNonNegative(c.Participants(), b)
    requires OnTheBooks(b, t) && b.priority == map[] && 0 <= b.Offset(t.id) <= t.depositAmount
    requires t !in c.Participants() ==> b.Received(t.id) == 0
    requires 0 <= b.remaining
    ensures var b' := PayClaims(b, PriorityClaims(c, b));
            && OnTheBooks(b', t)
            && (t !in c.Participants() ==> b'.Received(t.id) == 0)
  {
    hide PaidTo, TotalPaid, PriorityClaims, PayClaims, Claimed, PaidIn, TranchesMatch, TranchesOf, FirstMismatch;
    var claims := PriorityClaims(c, b);
    ClaimsOfTenant(c, b, t);
    PayClaimsTo(b, claims, t.id);
    PayClaimsTotals(b, claims);
    PaidWithinClaimed(b.remaining, claims, t.id);
    if t in c.Participants() {
      NoMismatch(c.Participants());
      TranchesCoverDeposit(t);
      TrancheClaimsWithin(t.id, TranchesOf(t), c.PriorityOf(t).possessionRightDate, b.Offset(t.id));
    }
  }

  lemma BookTwoRemaining(c: Case)
    ensures 0 <= BookOne(c).remaining
    ensures BookTwo(c).remaining == Max(0, BookOne(c).remaining - TaxTotal(PropertyTaxes(c.taxes)))
  {
    StageOneTotal(c.RemainingAfterCosts(), SmallClaimsIn(c));
    PayTaxesTotals(BookOne(c), PropertyTaxes(c.taxes), c.Participants(), c.ReliefApplies());
  }

  lemma BookThreeTo(c: Case, t: Tenant)
    requires DistinctIds(c) && t in c.tenants
    requires ErrorOf(c).None?
    ensures OnTheBooks(BookThree(c), t)
    ensures t !in c.Participants() ==> BookThree(c).Received(t.id) == 0
  {
    hide PaidTo, PayClaims, PriorityClaims, BookTwo, BookOne, DistinctIds, FirstMismatch, OffsetsNonNegative,
         OnTheBooks, TaxTotal, PropertyTaxes, FindApplicableRule;
    BookTwoTo(c, t);
    ParticipantOffsets(c);
    BookTwoRemaining(c);
    LastStageTo(c, BookTwo(c), t);
  }

  /** No tenant is paid more than the deposit over all stages and share splits; the reported total is
      the sum of the tenant's entries, and with opposing power the buyer takes over exactly the rest. */
  lemma NoOverpayment(c: Case, i: nat)
    requires DistinctIds(c) && i < |c.tenants|
    requires Distribute(c).Success?
    ensures var r, t := Distribute(c).value, c.tenants[i];
            var o := r.outcomes[i];
            && |r.outcomes| == |c.tenants| && o.tenantId == t.id
            && o.totalReceived == PaidTo(r.entries, t.id)
            && 0 <= o.totalReceived <= t.depositAmount
            && o.assumedAmount == (if o.hasPriority then t.depositAmount - o.totalReceived else 0)
            && (!c.PriorityOf(t).distributionDemandEffective ==> o.totalReceived == 0)
  {
    BookThreeTo(c, c.tenants[i]);
    ParticipantsName(c, c.tenants[i]);
  }

  /** What the book and the tax still hold when the relief of one tax is done. */
  function AfterRelief(b: Book, claim: TaxClaim, tenants: seq<Tenant>, relief: bool): (Book, int) {
    if relief then PayRelief(b, tenants, claim.statutoryDate, AmountOf(claim)) else (b, AmountOf(claim))
  }

  /** A claimant that is no tenant gets from one tax only what that tax itself is paid. */
  lemma PayTaxLog(b: Book, claim: TaxClaim, tenants: seq<Tenant>, relief: bool, id: string)
    requires forall i :: 0 <= i < |tenants| ==> tenants[i].id != id
    ensures var (r, left) := AfterRelief(b, claim, tenants, relief);
            PaidTo(PayTax(b, claim, tenants, relief).entries, id)
            == PaidTo(b.entries, id) + (if claim.id == id then Max(0, Min(r.remaining, left)) else 0)
  {
    var (r, left) := AfterRelief(b, claim, tenants, relief);
    if relief {
      OthersReliefUntouched(b, tenants, claim.statutoryDate, AmountOf(claim), id);
    }
    PayRecords(r, claim.id, TaxAuthority, Min(r.remaining, left), id);
  }

  lemma {:induction false} PayTaxesLog(b: Book, claims: seq<TaxClaim>, tenants: seq<Tenant>, relief: bool, id: string)
    requires forall i :: 0 <= i < |tenants| ==> tenants[i].id != id
    requires forall i :: 0 <= i < |claims| ==> claims[i].id != id
    ensures PaidTo(PayTaxes(b, claims, tenants, relief).entries, id) == PaidTo(b.entries, id)
    decreases |claims|
  {
    hide PaidTo, TotalPaid;
    if claims == [] || b.remaining <= 0 {
    } else {
      PayTaxLog(b, claims[0], tenants, relief, id);
      PayTaxesLog(PayTax(b, claims[0], tenants, relief), claims[1..], tenants, relief, id);
    }
  }

  lemma {:induction false} TaxWaitsForEarlierTenants(
    b: Book, claims: seq<TaxClaim>, tenants: seq<Tenant>, k: nat, t: Tenant)
    requires 0 <= b.remaining
    requires DistinctTenants(tenants) && t in tenants
    requires DistinctTaxes(claims) && k < |claims|
    requires forall i, j :: 0 <= i < |claims| && 0 <= j < |tenants| ==> claims[i].id != tenants[j].id
    requires t.fixedDate.Some? && t.fixedDate.value < claims[k].statutoryDate
    requires PaidTo(b.entries, claims[k].id) < PaidTo(PayTaxes(b, claims, tenants, true).entries, claims[k].id)
    ensures t.depositAmount <= PayTaxes(b, claims, tenants, true).Offset(t.id)
    decreases |claims|
  {
    hide PaidTo, TotalPaid, PayTax;
    if b.remaining > 0 {
      var next := PayTax(b, claims[0], tenants, true);
      NamesTenant(tenants, t);
      PayTaxTotals(b, claims[0], tenants, true);
      PayTaxLog(b, claims[0], tenants, true, claims[k].id);
      if k == 0 {
        var (r, left) := AfterRelief(b, claims[0], tenants, true);
        PayTaxesLog(next, claims[1..], tenants, true, claims[0].id);
        ReliefExhaustsEarlierTenants(b, tenants, claims[0].statutoryDate, AmountOf(claims[0]), t);
        PayTaxKeepsOffset(b, claims[0], tenants, t.id);
        PayTaxesTo(next, claims[1..], tenants, true, t);
      } else {
        TaxWaitsForEarlierTenants(next, claims[1..], tenants, k - 1, t);
      }
    }
  }

  lemma PayTaxKeepsOffset(b: Book, claim: TaxClaim, tenants: seq<Tenant>, id: string)
    ensures PayTax(b, claim, tenants, true).Offset(id) == AfterRelief(b, claim, tenants, true).0.Offset(id)
  {
  }

  lemma {:induction false} KnownTaxesDistinct(taxes: seq<TaxClaim>)
    requires DistinctTaxes(taxes)
    ensures DistinctTaxes(Filter(taxes, IsKnownPropertyTax))
  {
    if taxes != [] {
      KnownTaxesDistinct(taxes[1..]);
      var rest := Filter(taxes[1..], IsKnownPropertyTax);
      forall i | 0 <= i < |rest|
        ensures rest[i].id != taxes[0].id
      {
        FilterMember(taxes[1..], IsKnownPropertyTax, rest[i]);
      }
    }
  }

  lemma {:induction false} SortedTaxesDistinct(taxes: seq<TaxClaim>)
    requires DistinctTaxes(taxes)
    ensures DistinctTaxes(StableSort(taxes, StatutoryDateOf))
  {
    if taxes != [] {
      var rest := StableSort(taxes[1..], StatutoryDateOf);
      SortedTaxesDistinct(taxes[1..]);
      StableSortSorts(taxes[1..], StatutoryDateOf);
      forall y | y in rest
        ensures y.id != taxes[0].id
      {
        assert y in multiset(rest) && y in multiset(taxes[1..]);
        var i :| 0 <= i < |taxes[1..]| && taxes[1..][i] == y;
        assert taxes[i + 1] == y;
      }
      InsertTaxDistinct(taxes[0], rest);
    }
  }

  lemma {:induction false} InsertTaxDistinct(x: TaxClaim, s: seq<TaxClaim>)
    requires DistinctTaxes(s)
    requires forall y :: y in s ==> y.id != x.id
    ensures DistinctTaxes(Insert(x, s, StatutoryDateOf))
  {
    if s == [] || StatutoryDateOf(x) <= StatutoryDateOf(s[0]) {
    } else {
      InsertTaxDistinct(x, s[1..]);
      var rest := Insert(x, s[1..], StatutoryDateOf);
      forall i | 0 <= i < |rest|
        ensures rest[i].id != s[0].id
      {
        InsertMember(x, s[1..], StatutoryDateOf, rest[i]);
        if rest[i] != x {
          var j :| 0 <= j < |s[1..]| && s[1..][j] == rest[i];
          assert s[j + 1] == rest[i];
        }
      }
    }
  }

  /** A claimant that is no tenant gets nothing in stage 1. */
  lemma StageOneOnlyTenants(c: Case, id: string)
    requires DistinctIds(c) && !HasTenant(c.tenants, id)
    ensures PaidTo(BookOne(c).entries, id) == 0
    ensures forall i :: 0 <= i < |c.Participants()| ==> c.Participants()[i].id != id
  {
    var claims, cash := SmallClaimsIn(c), c.RemainingAfterCosts();
    var participants := c.Participants();
    SmallClaimsInCase(c);
    forall t | t in participants
      ensures t.id != id
    {
      ParticipantsAreTenants(c.tenants, c.Analysed(), t);
    }
    assert forall i :: 0 <= i < |claims| ==> claims[i].tenant in participants;
    assert PaidTo(OpeningBook(cash).entries, id) == 0;
    hide PaidTo, ShareOf, PaySmall;
    if TotalEntitlement(claims) > 0 {
      PaySmallTo(OpeningBook(cash), claims, cash / 2, TotalEntitlement(claims), id);
      ShareOfNone(claims, cash / 2, TotalEntitlement(claims), id);
    }
  }

  /** A property tax has no claim in the last stage. */
  lemma PropertyTaxesOutOfOrder(c: Case, b: Book, tax: TaxClaim)
    requires DistinctIds(c) && tax in c.taxes && tax.isPropertyTax
    requires OffsetsNonNegative(c.Participants(), b)
    ensures PaidIn(b.remaining, PriorityClaims(c, b), tax.id) == 0
  {
    var claims := PriorityClaims(c, b);
    forall i | 0 <= i < |claims|
      ensures claims[i].claimantId != tax.id
    {
      SortedClaimsMember(UnsortedClaims(c, b), claims[i]);
      TenantClaimsShape(c, c.Participants(), b);
      RightClaimsShape(c.rights);
      OrdinaryTaxClaimsShape(c.taxes);
      StageOneOnlyTenants(c, tax.id);
    }
    NotClaimed(claims, tax.id);
    PaidWithinClaimed(b.remaining, claims, tax.id);
  }

  lemma PropertyTaxLog(c: Case, tax: TaxClaim)
    requires DistinctIds(c) && tax in c.taxes && tax.isPropertyTax
    ensures PaidTo(BookThree(c).entries, tax.id) == PaidTo(BookTwo(c).entries, tax.id)
    ensures PaidTo(BookOne(c).entries, tax.id) == 0
    ensures forall i :: 0 <= i < |c.Participants()| ==> c.Participants()[i].id != tax.id
  {
    hide PaidTo, PayClaims, PaidIn, PriorityClaims;
    StageOneOnlyTenants(c, tax.id);
    ParticipantOffsets(c);
    PropertyTaxesOutOfOrder(c, BookTwo(c), tax);
    PayClaimsTo(BookTwo(c), PriorityClaims(c, BookTwo(c)), tax.id);
  }

  /** The relief of 2023-04-01: where it applies, a property tax is paid only after every tenant with
      an effective demand and an earlier fixed date has the whole deposit back, so that the buyer
      takes over nothing from that tenant. */
  lemma ReliefPutsEarlierTenantsFirst(c: Case, tax: TaxClaim, i: nat)
    requires DistinctIds(c) && i < |c.tenants| && c.ReliefApplies() && tax in c.taxes
    ensures var t := c.tenants[i];
            Distribute(c).Success? && IsKnownPropertyTax(tax) && 0 < PaidTo(Distribute(c).value.entries, tax.id)
            && c.PriorityOf(t).distributionDemandEffective
            && t.fixedDate.Some? && t.fixedDate.value < tax.statutoryDate ==>
              && Distribute(c).value.outcomes[i].totalReceived == t.depositAmount
              && Distribute(c).value.outcomes[i].assumedAmount == 0
  {
    var t := c.tenants[i];
    if Distribute(c).Success? && IsKnownPropertyTax(tax) && 0 < PaidTo(Distribute(c).value.entries, tax.id)
       && c.PriorityOf(t).distributionDemandEffective && t.fixedDate.Some? && t.fixedDate.value < tax.statutoryDate {
      ParticipantsName(c, t);
      PaidTaxMeansWholeTenant(c, tax, t);
    }
  }

  lemma PaidTaxMeansWholeTenant(c: Case, tax: TaxClaim, t: Tenant)
    requires DistinctIds(c) && t in c.tenants && ErrorOf(c).None? && c.ReliefApplies()
    requires tax in c.taxes && IsKnownPropertyTax(tax) && t in c.Participants()
    requires t.fixedDate.Some? && t.fixedDate.value < tax.statutoryDate
    ensures 0 < PaidTo(BookThree(c).entries, tax.id) ==> BookThree(c).Received(t.id) == t.depositAmount
  {
    var taxes := PropertyTaxes(c.taxes);
    PropertyTaxesAreTaxes(c.taxes, tax);
    KnownTaxesDistinct(c.taxes);
    SortedTaxesDistinct(Filter(c.taxes, IsKnownPropertyTax));
    var k :| 0 <= k < |taxes| && taxes[k] == tax;
    PropertyTaxLog(c, tax);
    BookTwoRemaining(c);
    ParticipantOffsets(c);
    ParticipantsName(c, t);
    if 0 < PaidTo(BookThree(c).entries, tax.id) {
      PaidTwo(c, k, t);
      BookThreeTo(c, t);
      ReceivedGrows(c, t);
    }
  }

  lemma PaidTwo(c: Case, k: nat, t: Tenant)
    requires DistinctIds(c) && c.ReliefApplies() && t in c.Participants()
    requires k < |PropertyTaxes(c.taxes)| && DistinctTaxes(PropertyTaxes(c.taxes))
    requires t.fixedDate.Some? && t.fixedDate.value < PropertyTaxes(c.taxes)[k].statutoryDate
    requires var id := PropertyTaxes(c.taxes)[k].id; PaidTo(BookOne(c).entries, id) < PaidTo(BookTwo(c).entries, id)
    ensures t.depositAmount <= BookTwo(c).Offset(t.id)
  {
    var taxes := PropertyTaxes(c.taxes);
    hide PaidTo, PayTax, PropertyTaxes, StageOne;
    ParticipantOffsets(c);
    BookTwoRemaining(c);
    forall i, j | 0 <= i < |taxes| && 0 <= j < |c.Participants()|
      ensures taxes[i].id != c.Participants()[j].id
    {
      PropertyTaxesAreTaxes(c.taxes, taxes[i]);
      StageOneOnlyTenants(c, taxes[i].id);
    }
    TaxWaitsForEarlierTenants(BookOne(c), taxes, c.Participants(), k, t);
  }

  lemma ReceivedGrows(c: Case, t: Tenant)
    requires DistinctIds(c) && t in c.tenants
    ensures BookTwo(c).Offset(t.id) <= BookThree(c).Received(t.id)
  {
    var b, claims := BookTwo(c), PriorityClaims(c, BookTwo(c));
    hide PaidTo, PayClaims, PaidIn, PriorityClaims, Claimed, BookTwo;
    BookTwoTo(c, t);
    ParticipantOffsets(c);
    PayClaimsTo(b, claims, t.id);
    PayClaimsFrame(b, claims);
    ClaimsOfTenant(c, b, t);
    PaidWithinClaimed(b.remaining, claims, t.id);
  }

  lemma {:induction false} PayClaimsFrame(b: Book, claims: seq<PriorityClaim>)
    ensures PayClaims(b, claims).small == b.small && PayClaims(b, claims).relief == b.relief
    decreases |claims|
  {
    if claims != [] && b.remaining > 0 {
      var paid := Min(b.remaining, claims[0].remainingClaim);
      PayClaimsFrame(b.PayInOrder(claims[0].claimantId, claims[0].kind, paid), claims[1..]);
    }
  }

  /** The last stage pays strictly in date order: full payments, at most one partial one, then
      nothing; money left at the end means that every claim was paid in full. */
  lemma StrictDateOrder(c: Case)
    ensures var claims, b, b' := PriorityClaims(c, BookTwo(c)), BookTwo(c), BookThree(c);
            && SortedBy(claims, PriorityDateOf)
            && multiset(claims) == multiset(UnsortedClaims(c, b))
            && FullPrefix(b, b', claims)
            && (0 < b'.remaining ==>
                  && |b'.entries| == |b.entries| + |claims|
                  && forall i :: |b.entries| <= i < |b'.entries| ==>
                       b'.entries[i].paid == claims[i - |b.entries|].remainingClaim)
  {
    hide PayClaims, PriorityClaims, UnsortedClaims, BookTwo, FullPrefix, SortedBy;
    BookTwoRemaining(c);
    StageInDateOrder(c, BookTwo(c));
  }
}

/** What stage 1 pays a tenant, in the words of the decrees: nothing above the deposit cap of the region; otherwise
    the deposit up to the repayment cap, cut down in one proportion when half the proceeds are not enough. */
module SmallDepositLaws {
  import opened Collections
  import opened RightsTypes
  import opened SmallDeposit
  import opened Distribution
  import opened DistributionStages
  import opened DistributionLaws

  /** In force on the date, and none in force is later. */
  ghost predicate IsInForce(r: Rule, date: Date) {
    && r in RULES && r.effectiveDate <= date
    && forall x :: x in RULES && x.effectiveDate <= date ==> x.effectiveDate <= r.effectiveDate
  }

  ghost predicate IsCap(caps: ByRegion, region: RegionTier, cap: nat) {
    && (region.Seoul? ==> cap == caps.seoul)
    && (region.Overconcentration? ==> cap == caps.overconcentration)
    && (region.Metro? ==> cap == caps.metro)
    && (region.Other? ==> cap == caps.other)
  }

  predicate CapsWithin(low: ByRegion, high: ByRegion) {
    && low.seoul <= high.seoul && low.overconcentration <= high.overconcentration
    && low.metro <= high.metro && low.other <= high.other
  }

  /** A later decree: no cap falls, and what is put first is within what makes a small deposit. */
  predicate Follows(r: Rule, later: Rule) {
    && r.effectiveDate < later.effectiveDate
    && CapsWithin(r.depositCap, later.depositCap) && CapsWithin(r.repaymentCap, later.repaymentCap)
    && CapsWithin(r.repaymentCap, r.depositCap) && CapsWithin(later.repaymentCap, later.depositCap)
  }

  lemma NextDecree(i: nat)
    requires i + 1 < |RULES|
    ensures Follows(RULES[i], RULES[i + 1])
  {
    if i < 6 {
      assert i == 0 || i == 1 || i == 2 || i == 3 || i == 4 || i == 5;
    } else {
      assert i == 6 || i == 7 || i == 8 || i == 9 || i == 10;
    }
  }

  /** The decrees are listed by date, and each follows all earlier ones. */
  lemma {:induction false} DecreesOnlyRise(i: nat, j: nat)
    requires i < j < |RULES|
    ensures Follows(RULES[i], RULES[j])
  {
    hide Follows;
    NextDecree(j - 1);
    if i < j - 1 {
      DecreesOnlyRise(i, j - 1);
      FollowsOn(RULES[i], RULES[j - 1], RULES[j]);
    }
  }

  lemma FollowsOn(r: Rule, next: Rule, later: Rule)
    requires Follows(r, next) && Follows(next, later)
    ensures Follows(r, later)
  {
  }

  /** What the decree puts first of one deposit. */
  function Due(t: Tenant, depositCap: nat, repaymentCap: nat): nat {
    if depositCap < t.depositAmount then 0 else Min(t.depositAmount, repaymentCap)
  }

  function DueTotal(tenants: seq<Tenant>, depositCap: nat, repaymentCap: nat): nat {
    if tenants == [] then 0
    else Due(tenants[0], depositCap, repaymentCap) + DueTotal(tenants[1..], depositCap, repaymentCap)
  }

  /** What the log says was paid to one claimant in one capacity, and whether it has an entry in it. */
  function PaidAs(entries: seq<Entry>, id: string, kind: ClaimantKind): int {
    if entries == [] then 0
    else
      var last := entries[|entries| - 1];
      PaidAs(entries[..|entries| - 1], id, kind) + (if last.claimantId == id && last.kind == kind then last.paid else 0)
  }

  ghost predicate HasEntry(entries: seq<Entry>, id: string, kind: ClaimantKind) {
    exists e :: e in entries && e.claimantId == id && e.kind == kind
  }

  /** Nothing was logged for small deposits in between. */
  ghost predicate SameSmall(b: Book, b': Book, id: string) {
    && PaidAs(b'.entries, id, SmallDepositTenant) == PaidAs(b.entries, id, SmallDepositTenant)
    && (HasEntry(b'.entries, id, SmallDepositTenant) <==> HasEntry(b.entries, id, SmallDepositTenant))
  }

  lemma PayAsOther(b: Book, who: string, kind: ClaimantKind, paid: int, id: string)
    requires !kind.SmallDepositTenant?
    ensures SameSmall(b, b.Pay(who, kind, paid), id)
  {
    var e := Entry(who, kind, paid);
    assert (b.entries + [e])[..|b.entries|] == b.entries;
    assert forall x :: x in b.entries + [e] <==> x in b.entries || x == e;
  }

  // ---- the later stages pay nobody as a small deposit

  lemma {:induction false} ReliefIsOther(b: Book, tenants: seq<Tenant>, taxDate: Date, claimLeft: int, id: string)
    ensures SameSmall(b, PayRelief(b, tenants, taxDate, claimLeft).0, id)
    decreases |tenants|
  {
    hide SameSmall, Diverted;
    if tenants == [] || claimLeft <= 0 || b.remaining <= 0 {
      assert SameSmall(b, b, id) by { SameAsItself(b, id); }
    } else {
      var paid := Diverted(b, tenants[0], taxDate, claimLeft);
      var b' := Divert(b, tenants[0], paid);
      PayAsOther(b, tenants[0].id, PriorityTenant, paid, id);
      SameAsItself(b, id);
      SameEntries(b.Pay(tenants[0].id, PriorityTenant, paid), b.PayAsRelief(tenants[0].id, paid), id);
      SameTwice(b, b.Pay(tenants[0].id, PriorityTenant, paid), b.PayAsRelief(tenants[0].id, paid), id);
      ReliefIsOther(b', tenants[1..], taxDate, claimLeft - paid, id);
      SameTwice(b, b', PayRelief(b', tenants[1..], taxDate, claimLeft - paid).0, id);
    }
  }

  lemma SameAsItself(b: Book, id: string)
    ensures SameSmall(b, b, id)
  {
  }

  lemma SameEntries(b: Book, b': Book, id: string)
    requires b'.entries == b.entries
    ensures SameSmall(b, b', id)
  {
  }

  lemma SameTwice(b: Book, b': Book, b'': Book, id: string)
    requires SameSmall(b, b', id) && SameSmall(b', b'', id)
    ensures SameSmall(b, b'', id)
  {
  }

  lemma TaxIsOther(b: Book, claim: TaxClaim, tenants: seq<Tenant>, relief: bool, id: string)
    ensures SameSmall(b, PayTax(b, claim, tenants, relief), id)
  {
    hide SameSmall, PayRelief;
    var (after, left) := AfterRelief(b, claim, tenants, relief);
    SameAsItself(b, id);
    ReliefIsOther(b, tenants, claim.statutoryDate, AmountOf(claim), id);
    PayAsOther(after, claim.id, TaxAuthority, Min(after.remaining, left), id);
    SameTwice(b, after, after.Pay(claim.id, TaxAuthority, Min(after.remaining, left)), id);
  }

  lemma {:induction false} TaxesAreOther(b: Book, claims: seq<TaxClaim>, tenants: seq<Tenant>, relief: bool, id: string)
    ensures SameSmall(b, PayTaxes(b, claims, tenants, relief), id)
    decreases |claims|
  {
    hide SameSmall, PayTax;
    SameAsItself(b, id);
    if claims != [] && 0 < b.remaining {
      TaxIsOther(b, claims[0], tenants, relief, id);
      TaxesAreOther(PayTax(b, claims[0], tenants, relief), claims[1..], tenants, relief, id);
      SameTwice(b, PayTax(b, claims[0], tenants, relief), PayTaxes(b, claims, tenants, relief), id);
    }
  }

  lemma {:induction false} ClaimsAreOther(b: Book, claims: seq<PriorityClaim>, id: string)
    requires forall x :: x in claims ==> !x.kind.SmallDepositTenant?
    ensures SameSmall(b, PayClaims(b, claims), id)
    decreases |claims|
  {
    hide SameSmall;
    SameAsItself(b, id);
    if claims != [] && 0 < b.remaining {
      assert claims[0] in claims && forall x :: x in claims[1..] ==> x in claims;
      var paid := Min(b.remaining, claims[0].remainingClaim);
      var plain, b' := b.Pay(claims[0].claimantId, claims[0].kind, paid),
          b.PayInOrder(claims[0].claimantId, claims[0].kind, paid);
      PayAsOther(b, claims[0].claimantId, claims[0].kind, paid, id);
      SameEntries(plain, b', id);
      SameTwice(b, plain, b', id);
      ClaimsAreOther(b', claims[1..], id);
      SameTwice(b, b', PayClaims(b, claims), id);
    }
  }

  lemma LastStageIsOther(c: Case)
    requires DistinctIds(c)
    ensures forall x :: x in PriorityClaims(c, BookTwo(c)) ==> !x.kind.SmallDepositTenant?
  {
    hide BookTwo, TenantClaims, RightClaims, OrdinaryTaxClaims, StableSort, ParticipantsOf, AnalysesOf;
    ParticipantOffsets(c);
    TenantClaimsShape(c, c.Participants(), BookTwo(c));
    RightClaimsShape(c.rights);
    OrdinaryTaxClaimsShape(c.taxes);
    forall x | x in PriorityClaims(c, BookTwo(c))
      ensures !x.kind.SmallDepositTenant?
    {
      SortedClaimsMember(UnsortedClaims(c, BookTwo(c)), x);
    }
  }

  // ---- stage 1

  lemma {:induction false} SmallPayments(b: Book, claims: seq<SmallClaim>, budget: nat, total: nat, id: string)
    requires total > 0
    ensures var b' := PaySmall(b, claims, budget, total);
            && PaidAs(b'.entries, id, SmallDepositTenant)
               == PaidAs(b.entries, id, SmallDepositTenant) + ShareOf(claims, budget, total, id)
            && (HasEntry(b'.entries, id, SmallDepositTenant) <==>
                  || HasEntry(b.entries, id, SmallDepositTenant)
                  || exists k :: 0 <= k < |claims| && claims[k].tenant.id == id)
    decreases |claims|
  {
    hide Share;
    if claims != [] {
      var first, rest := claims[0], claims[1..];
      var paid := Share(first.entitlement, budget, total);
      var b' := b.PayAsSmallDeposit(first.tenant.id, paid);
      var e := Entry(first.tenant.id, SmallDepositTenant, paid);
      assert b'.entries == b.entries + [e] && b'.entries[..|b.entries|] == b.entries;
      assert forall x :: x in b'.entries <==> x in b.entries || x == e;
      SmallPayments(b', rest, budget, total, id);
      if exists k :: 0 <= k < |rest| && rest[k].tenant.id == id {
        var k :| 0 <= k < |rest| && rest[k].tenant.id == id;
        assert claims[k + 1].tenant.id == id;
      }
      if k :| 0 <= k < |claims| && claims[k].tenant.id == id && k > 0 {
        assert rest[k - 1].tenant.id == id;
      }
    }
  }

  lemma RuleInForce(r: Rule, date: Date)
    requires IsInForce(r, date)
    ensures FindApplicableRule(date) == Some(r)
  {
    LatestRuleIsLatest(RULES, date);
    var found := FindApplicableRule(date).value;
    var i: nat :| i < |RULES| && RULES[i] == r;
    var j: nat :| j < |RULES| && RULES[j] == found;
    if i < j {
      DecreesOnlyRise(i, j);
    } else if j < i {
      DecreesOnlyRise(j, i);
    }
  }

  lemma EntitlementIsDue(t: Tenant, r: Rule, region: RegionTier, depositCap: nat, repaymentCap: nat)
    requires IsCap(r.depositCap, region, depositCap) && IsCap(r.repaymentCap, region, repaymentCap)
    ensures IsEligible(t, r, region) <==> t.depositAmount <= depositCap
    ensures PriorityRepayment(t, r, region) == Due(t, depositCap, repaymentCap)
  {
  }

  lemma {:induction false} TotalIsDue(tenants: seq<Tenant>, r: Rule, region: RegionTier, depositCap: nat,
                                      repaymentCap: nat)
    requires IsCap(r.depositCap, region, depositCap) && IsCap(r.repaymentCap, region, repaymentCap)
    ensures TotalEntitlement(SmallClaimsOf(tenants, r, region)) == DueTotal(tenants, depositCap, repaymentCap)
  {
    hide IsCap, IsEligible, PriorityRepayment;
    if tenants != [] {
      EntitlementIsDue(tenants[0], r, region, depositCap, repaymentCap);
      TotalIsDue(tenants[1..], r, region, depositCap, repaymentCap);
      var rest := SmallClaimsOf(tenants[1..], r, region);
      assert [] + rest == rest;
      var first := SmallClaim(tenants[0], PriorityRepayment(tenants[0], r, region));
      assert ([first] + rest)[1..] == rest;
    }
  }

  lemma {:induction false} SmallClaimMember(tenants: seq<Tenant>, r: Rule, region: RegionTier, x: SmallClaim)
    ensures x in SmallClaimsOf(tenants, r, region)
            <==> x.tenant in tenants && IsEligible(x.tenant, r, region)
                 && x.entitlement == PriorityRepayment(x.tenant, r, region)
  {
    hide IsEligible, PriorityRepayment;
    if tenants != [] {
      SmallClaimMember(tenants[1..], r, region, x);
      assert tenants == [tenants[0]] + tenants[1..];
    }
  }

  lemma ClaimOfTenant(tenants: seq<Tenant>, r: Rule, region: RegionTier, t: Tenant)
    requires DistinctTenants(tenants) && t in tenants
    ensures var claims := SmallClaimsOf(tenants, r, region);
            && (IsEligible(t, r, region) ==> SmallClaim(t, PriorityRepayment(t, r, region)) in claims)
            && (!IsEligible(t, r, region) ==> forall k :: 0 <= k < |claims| ==> claims[k].tenant.id != t.id)
  {
    hide IsEligible, PriorityRepayment, SmallClaimsOf;
    var claims := SmallClaimsOf(tenants, r, region);
    SmallClaimMember(tenants, r, region, SmallClaim(t, PriorityRepayment(t, r, region)));
    var i :| 0 <= i < |tenants| && tenants[i] == t;
    forall k | 0 <= k < |claims| && !IsEligible(t, r, region)
      ensures claims[k].tenant.id != t.id
    {
      SmallClaimMember(tenants, r, region, claims[k]);
      var j :| 0 <= j < |tenants| && tenants[j] == claims[k].tenant;
    }
  }

  /** Stage 1 for one participant. */
  lemma StageOnePays(c: Case, r: Rule, date: Date, depositCap: nat, repaymentCap: nat, t: Tenant)
    requires DistinctTenants(c.tenants) && t in c.Participants()
    requires ResolveMortgageReferenceDate(c.rights) == Some(date) && IsInForce(r, date)
    requires IsCap(r.depositCap, c.region, depositCap) && IsCap(r.repaymentCap, c.region, repaymentCap)
    ensures var total, half := DueTotal(c.Participants(), depositCap, repaymentCap), c.RemainingAfterCosts() / 2;
            var due, entries := Due(t, depositCap, repaymentCap), BookOne(c).entries;
            && PaidAs(entries, t.id, SmallDepositTenant) == (if total <= half then due else due * half / total)
            && (depositCap < t.depositAmount ==> !HasEntry(entries, t.id, SmallDepositTenant))
  {
    hide ParticipantsOf, AnalysesOf, FindApplicableRule, ResolveMortgageReferenceDate, SmallClaimsOf, PaySmall,
         IsEligible, PriorityRepayment, IsCap, IsInForce, ShareOf, HasEntry, DueTotal, TotalEntitlement;
    var participants, cash := c.Participants(), c.RemainingAfterCosts();
    RuleInForce(r, date);
    ParticipantsDistinct(c.tenants, c.Analysed());
    SmallClaimsAreTenants(participants, r, c.region);
    var claims := SmallClaimsOf(participants, r, c.region);
    assert SmallClaimsIn(c) == claims;
    TotalIsDue(participants, r, c.region, depositCap, repaymentCap);
    EntitlementIsDue(t, r, c.region, depositCap, repaymentCap);
    ClaimOfTenant(participants, r, c.region, t);
    var total := TotalEntitlement(claims);
    NothingLogged(t.id);
    if IsEligible(t, r, c.region) {
      var k :| 0 <= k < |claims| && claims[k] == SmallClaim(t, PriorityRepayment(t, r, c.region));
      EntitlementInTotal(claims, k);
      if total > 0 {
        SmallPayments(OpeningBook(cash), claims, cash / 2, total, t.id);
        ShareOfClaim(claims, cash / 2, total, k);
      }
    } else if total > 0 {
      SmallPayments(OpeningBook(cash), claims, cash / 2, total, t.id);
      ShareOfNone(claims, cash / 2, total, t.id);
    }
  }

  lemma NothingLogged(id: string)
    ensures PaidAs([], id, SmallDepositTenant) == 0 && !HasEntry([], id, SmallDepositTenant)
  {
  }

  /** In every run, by the latest decree in force on the reference date: a participant whose deposit is above the cap
      of the region gets no small-deposit entry. Every other gets the deposit up to the repayment cap, in full when
      half the proceeds cover what is due to all, and otherwise the same proportion of it, rounded down. */
  lemma SmallDepositsByDecree(c: Case, r: Rule, date: Date, depositCap: nat, repaymentCap: nat, t: Tenant)
    requires DistinctIds(c) && Distribute(c).Success? && t in c.Participants()
    requires ResolveMortgageReferenceDate(c.rights) == Some(date) && IsInForce(r, date)
    requires IsCap(r.depositCap, c.region, depositCap) && IsCap(r.repaymentCap, c.region, repaymentCap)
    ensures var total, half := DueTotal(c.Participants(), depositCap, repaymentCap),
                               Max(0, c.saleAmount - c.auctionCost) / 2;
            var due, entries := Due(t, depositCap, repaymentCap), Distribute(c).value.entries;
            && PaidAs(entries, t.id, SmallDepositTenant) == (if total <= half then due else due * half / total)
            && (depositCap < t.depositAmount ==> !HasEntry(entries, t.id, SmallDepositTenant))
  {
    hide BookOne, PayTaxes, PropertyTaxes, PayClaims, PriorityClaims, ParticipantsOf, AnalysesOf, SameSmall,
         DistinctIds, ErrorOf, ResolveMortgageReferenceDate, IsInForce, IsCap, DueTotal, HasEntry;
    assert DistinctTenants(c.tenants) by { DistinctTenantsIn(c); }
    StageOnePays(c, r, date, depositCap, repaymentCap, t);
    TaxesAreOther(BookOne(c), PropertyTaxes(c.taxes), c.Participants(), c.ReliefApplies(), t.id);
    LastStageIsOther(c);
    ClaimsAreOther(BookTwo(c), PriorityClaims(c, BookTwo(c)), t.id);
    SameTwice(BookOne(c), BookTwo(c), BookThree(c), t.id);
    assert Distribute(c).value.entries == BookThree(c).entries;
    assert PaidAs(BookThree(c).entries, t.id, SmallDepositTenant)
           == PaidAs(BookOne(c).entries, t.id, SmallDepositTenant)
           && (HasEntry(BookThree(c).entries, t.id, SmallDepositTenant)
               <==> HasEntry(BookOne(c).entries, t.id, SmallDepositTenant)) by {
      SameSmallMeans(BookOne(c), BookThree(c), t.id);
    }
  }

  lemma SameSmallMeans(b: Book, b': Book, id: string)
    requires SameSmall(b, b', id)
    ensures PaidAs(b'.entries, id, SmallDepositTenant) == PaidAs(b.entries, id, SmallDepositTenant)
    ensures HasEntry(b'.entries, id, SmallDepositTenant) <==> HasEntry(b.entries, id, SmallDepositTenant)
  {
  }

  lemma DistinctTenantsIn(c: Case)
    requires DistinctIds(c)
    ensures DistinctTenants(c.tenants)
  {
  }
}

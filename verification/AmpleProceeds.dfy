/** Proceeds that cover everything that is claimed: whoever takes part with a fixed date is paid in full, whoever
    else claims and however the stages divide the money. */
module AmpleProceeds {
  import opened Collections
  import opened RightsTypes
  import opened SmallDeposit
  import opened TenantPriority
  import opened Distribution
  import opened DistributionStages
  import opened DistributionLaws
  import opened BaselineRight

  function DepositOf(t: Tenant): int { t.depositAmount }

  function TotalDeposits(tenants: seq<Tenant>): (total: int)
    ensures 0 <= total
  {
    DepositsNonNegative(tenants);
    Sum(tenants, DepositOf)
  }

  lemma {:induction false} DepositsNonNegative(tenants: seq<Tenant>)
    ensures 0 <= Sum(tenants, DepositOf)
  {
    if tenants != [] { DepositsNonNegative(tenants[1..]); }
  }

  /** What a right can take out; one of negative amount takes nothing. */
  function RightDue(r: RegisteredRight): int {
    if r.amount.Some? then Max(0, r.amount.value) else 0
  }

  function TaxDue(x: TaxClaim): int { AmountOf(x) }

  /** The deposits of all who take part, all rights and all known taxes together are within the proceeds. */
  ghost predicate CoversAll(c: Case) {
    TotalDeposits(c.Participants()) + Sum(c.rights, RightDue) + Sum(c.taxes, TaxDue) <= c.RemainingAfterCosts()
  }

  // ---- what stage 1 pays, tenant by tenant

  function GotTotal(m: map<string, int>, tenants: seq<Tenant>): int {
    if tenants == [] then 0 else Got(m, tenants[0].id) + GotTotal(m, tenants[1..])
  }

  lemma {:induction false} SameGotTotal(m: map<string, int>, m': map<string, int>, tenants: seq<Tenant>)
    requires forall i :: 0 <= i < |tenants| ==> Got(m', tenants[i].id) == Got(m, tenants[i].id)
    ensures GotTotal(m', tenants) == GotTotal(m, tenants)
  {
    if tenants != [] { SameGotTotal(m, m', tenants[1..]); }
  }

  lemma OthersSmallClaims(t: Tenant, rest: seq<Tenant>, rule: Rule, region: RegionTier)
    requires DistinctTenants([t] + rest)
    ensures DistinctTenants(rest) && DistinctSmallClaims(SmallClaimsOf(rest, rule, region))
    ensures forall k :: 0 <= k < |SmallClaimsOf(rest, rule, region)| ==>
              SmallClaimsOf(rest, rule, region)[k].tenant.id != t.id
    ensures forall i :: 0 <= i < |rest| ==> rest[i].id != t.id
  {
    hide SmallClaimsOf;
    var tenants, others := [t] + rest, SmallClaimsOf(rest, rule, region);
    assert tenants[0] == t;
    forall i | 0 <= i < |rest|
      ensures rest[i].id != t.id
    {
      assert tenants[i + 1] == rest[i];
    }
    assert forall i :: 0 <= i < |rest| ==> rest[i] == tenants[i + 1];
    SmallClaimsAreTenants(rest, rule, region);
    forall k | 0 <= k < |others|
      ensures others[k].tenant.id != t.id
    {
      var i :| 0 <= i < |rest| && rest[i] == others[k].tenant;
    }
  }

  lemma {:induction false} SharesByTenant(b: Book, tenants: seq<Tenant>, rule: Rule, region: RegionTier, budget: nat,
                                          total: nat)
    requires total > 0 && DistinctTenants(tenants)
    requires forall i :: 0 <= i < |tenants| ==> tenants[i].id !in b.small
    ensures GotTotal(PaySmall(b, SmallClaimsOf(tenants, rule, region), budget, total).small, tenants)
            == SharesTotal(SmallClaimsOf(tenants, rule, region), budget, total)
    decreases |tenants|
  {
    hide IsEligible, PriorityRepayment, Share, ShareOf, PaidTo, DistinctSmallClaims;
    if tenants != [] {
      var t, rest := tenants[0], tenants[1..];
      var others := SmallClaimsOf(rest, rule, region);
      assert tenants == [t] + rest;
      OthersSmallClaims(t, rest, rule, region);
      var claim := SmallClaim(t, PriorityRepayment(t, rule, region));
      var eligible := IsEligible(t, rule, region);
      var b' := if eligible then b.PayAsSmallDeposit(t.id, Share(claim.entitlement, budget, total)) else b;
      assert ([claim] + others)[1..] == others && [] + others == others;
      assert PaySmall(b, SmallClaimsOf(tenants, rule, region), budget, total) == PaySmall(b', others, budget, total);
      SharesByTenant(b', rest, rule, region, budget, total);
      PaySmallTo(b', others, budget, total, t.id);
      ShareOfNone(others, budget, total, t.id);
    }
  }

  lemma {:induction false} NothingGot(tenants: seq<Tenant>)
    ensures GotTotal(map[], tenants) == 0
  {
    if tenants != [] { NothingGot(tenants[1..]); }
  }

  /** What stage 1 took out of the cash is what the participants have got. */
  lemma StageOneByTenant(c: Case)
    requires DistinctTenants(c.tenants)
    ensures GotTotal(BookOne(c).small, c.Participants()) == c.RemainingAfterCosts() - BookOne(c).remaining
  {
    hide ParticipantsOf, AnalysesOf, FindApplicableRule, ResolveMortgageReferenceDate, PaySmall, SmallClaimsOf,
         GotTotal;
    var cash, claims := c.RemainingAfterCosts(), SmallClaimsIn(c);
    var total := TotalEntitlement(claims);
    ParticipantsDistinct(c.tenants, c.Analysed());
    NothingGot(c.Participants());
    if total > 0 {
      var rule := FindApplicableRule(ResolveMortgageReferenceDate(c.rights).value).value;
      SharesByTenant(OpeningBook(cash), c.Participants(), rule, c.region, cash / 2, total);
      PaySmallTotals(OpeningBook(cash), claims, cash / 2, total);
    }
  }

  // ---- what is claimed in the last stage

  function Positive(x: PriorityClaim): int { Max(0, x.remainingClaim) }

  lemma {:induction false} PositiveTotal(claims: seq<PriorityClaim>)
    ensures 0 <= Sum(claims, Positive)
  {
    if claims != [] { PositiveTotal(claims[1..]); }
  }

  lemma {:induction false} OwnTotal(claims: seq<PriorityClaim>, id: string)
    requires forall i :: 0 <= i < |claims| ==> claims[i].claimantId == id && 0 < claims[i].remainingClaim
    ensures Sum(claims, Positive) == Claimed(claims, id)
  {
    if claims != [] { OwnTotal(claims[1..], id); }
  }

  /** Within what was not paid before, tenant by tenant. */
  ghost predicate WithinDeposit(b: Book, t: Tenant) {
    0 <= b.Offset(t.id) <= t.depositAmount && 0 <= Got(b.relief, t.id) && TranchesMatch(t)
  }

  lemma OwnWithinDeposit(c: Case, t: Tenant, b: Book)
    requires WithinDeposit(b, t)
    ensures Sum(OwnClaims(c, t, b), Positive) <= t.depositAmount - Got(b.small, t.id)
  {
    hide TrancheClaims, TranchesOf, TranchesMatch, Sum, Claimed;
    TranchesCoverDeposit(t);
    TrancheClaimsWithin(t.id, TranchesOf(t), c.PriorityOf(t).possessionRightDate, b.Offset(t.id));
    OwnTotal(OwnClaims(c, t, b), t.id);
  }

  lemma {:induction false} ClaimsWithinDeposits(c: Case, tenants: seq<Tenant>, b: Book)
    requires forall i :: 0 <= i < |tenants| ==> WithinDeposit(b, tenants[i])
    ensures Sum(TenantClaims(c, tenants, b), Positive) <= TotalDeposits(tenants) - GotTotal(b.small, tenants)
  {
    if tenants != [] {
      var own, rest := OwnClaims(c, tenants[0], b), TenantClaims(c, tenants[1..], b);
      ClaimsWithinDeposits(c, tenants[1..], b);
      OwnWithinDeposit(c, tenants[0], b);
      SumAppend(own, rest, Positive);
    }
  }

  lemma {:induction false} RightsTotal(rights: seq<RegisteredRight>)
    ensures Sum(RightClaims(rights), Positive) == Sum(rights, RightDue)
  {
    if rights != [] {
      RightsTotal(rights[1..]);
      var rest := RightClaims(rights[1..]);
      assert [] + rest == rest;
      if rights[0].amount.Some? {
        assert RightClaims(rights)[1..] == rest;
      }
    }
  }

  lemma {:induction false} KnownTaxTotal(taxes: seq<TaxClaim>)
    ensures TaxTotal(taxes) == Sum(taxes, TaxDue)
  {
    if taxes != [] { KnownTaxTotal(taxes[1..]); }
  }

  /** Every tax is paid in one of the two stages, if it is known at all. */
  lemma {:induction false} TaxesByStage(taxes: seq<TaxClaim>)
    ensures Sum(OrdinaryTaxClaims(taxes), Positive) + Sum(Filter(taxes, IsKnownPropertyTax), TaxDue)
            == Sum(taxes, TaxDue)
  {
    if taxes != [] {
      TaxesByStage(taxes[1..]);
      var ordinary, known := OrdinaryTaxClaims(taxes[1..]), Filter(taxes[1..], IsKnownPropertyTax);
      assert [] + ordinary == ordinary;
      if !taxes[0].isPropertyTax && taxes[0].amount.Some? {
        assert OrdinaryTaxClaims(taxes)[1..] == ordinary;
      }
      assert ([taxes[0]] + known)[1..] == known;
    }
  }

  lemma PropertyTaxTotal(taxes: seq<TaxClaim>)
    ensures TaxTotal(PropertyTaxes(taxes)) == Sum(Filter(taxes, IsKnownPropertyTax), TaxDue)
  {
    KnownTaxTotal(PropertyTaxes(taxes));
    SumOfSort(Filter(taxes, IsKnownPropertyTax), StatutoryDateOf, TaxDue);
  }

  lemma DepositsCoverGot(c: Case, tenants: seq<Tenant>, b: Book)
    requires forall i :: 0 <= i < |tenants| ==> WithinDeposit(b, tenants[i])
    ensures GotTotal(b.small, tenants) <= TotalDeposits(tenants)
  {
    ClaimsWithinDeposits(c, tenants, b);
    PositiveTotal(TenantClaims(c, tenants, b));
  }

  /** What the last stage finds is enough for all it is asked for. */
  lemma LastStageCovered(c: Case)
    requires DistinctIds(c) && ErrorOf(c).None? && CoversAll(c)
    ensures 0 <= BookTwo(c).remaining && Sum(PriorityClaims(c, BookTwo(c)), Positive) <= BookTwo(c).remaining
  {
    hide BookOne, BookTwo, StableSort, TenantClaims, ParticipantsOf, Sum, DistinctIds, RightClaims, OrdinaryTaxClaims,
         AnalysesOf, TaxTotal, PropertyTaxes, TotalDeposits, GotTotal, WithinDeposit;
    var b, participants := BookTwo(c), c.Participants();
    var own, rights, taxes := TenantClaims(c, participants, b), RightClaims(c.rights), OrdinaryTaxClaims(c.taxes);
    DistinctTenantsOf(c);
    StageOneByTenant(c);
    BookTwoRemaining(c);
    StageTwoKeepsSmall(c);
    ParticipantsWithinDeposit(c);
    DepositsCoverGot(c, participants, b);
    ClaimsWithinDeposits(c, participants, b);
    RightsTotal(c.rights);
    PositiveTotal(rights);
    TaxesByStage(c.taxes);
    PositiveTotal(taxes);
    PropertyTaxTotal(c.taxes);
    SumAppend(own, rights, Positive);
    SumAppend(own + rights, taxes, Positive);
    SumOfSort(UnsortedClaims(c, b), PriorityDateOf, Positive);
  }

  lemma StageTwoKeepsSmall(c: Case)
    ensures BookTwo(c).small == BookOne(c).small
  {
    hide BookOne;
    BookTwoRemaining(c);
    PayTaxesTotals(BookOne(c), PropertyTaxes(c.taxes), c.Participants(), c.ReliefApplies());
  }

  lemma ParticipantsWithinDeposit(c: Case)
    requires DistinctIds(c) && ErrorOf(c).None?
    ensures forall i :: 0 <= i < |c.Participants()| ==> WithinDeposit(BookTwo(c), c.Participants()[i])
  {
    hide BookOne, BookTwo, ParticipantsOf, DistinctIds, AnalysesOf, TranchesMatch;
    var participants := c.Participants();
    NoMismatch(participants);
    forall i | 0 <= i < |participants|
      ensures WithinDeposit(BookTwo(c), participants[i])
    {
      ParticipantsAreTenants(c.tenants, c.Analysed(), participants[i]);
      BookTwoTo(c, participants[i]);
      ReliefNonNegative(c, participants[i]);
    }
  }

  lemma ReliefNonNegative(c: Case, t: Tenant)
    requires DistinctIds(c) && t in c.tenants
    ensures 0 <= Got(BookTwo(c).relief, t.id)
  {
    hide BookOne, PropertyTaxes, ParticipantsOf, AnalysesOf, PayTaxes;
    BookOneTo(c, t);
    ParticipantsName(c, t);
    PropertyTaxesNotTenants(c, t);
    PayTaxesTo(BookOne(c), PropertyTaxes(c.taxes), c.Participants(), c.ReliefApplies(), t);
  }

  // ---- covered claims are paid

  lemma {:induction false} CoveredClaimsArePaid(cash: int, claims: seq<PriorityClaim>, id: string)
    requires NonNegativeClaims(claims, id) && 0 <= cash && Sum(claims, Positive) <= cash
    ensures PaidIn(cash, claims, id) == Claimed(claims, id)
    decreases |claims|
  {
    if claims != [] {
      assert Sum(claims, Positive) == Positive(claims[0]) + Sum(claims[1..], Positive);
      PositiveTotal(claims[1..]);
      CoveredClaimsArePaid(if cash == 0 then 0 else cash - claims[0].remainingClaim, claims[1..], id);
      if cash == 0 { PaidWithinClaimed(0, claims[1..], id); }
    }
  }

  ghost predicate AllDated(tranches: seq<DepositTranche>) {
    forall i :: 0 <= i < |tranches| ==> tranches[i].fixedDate.Some?
  }

  /** Shares that all have a fixed date claim everything that was not set off. */
  lemma {:induction false} DatedClaimEverything(id: string, tranches: seq<DepositTranche>, possession: Date,
                                                toOffset: int)
    requires AllDated(tranches) && 0 <= toOffset
    ensures Claimed(TrancheClaims(id, tranches, possession, toOffset), id) == Max(0, TrancheTotal(tranches) - toOffset)
  {
    if tranches != [] {
      var offset := Min(toOffset, tranches[0].amount);
      DatedClaimEverything(id, tranches[1..], possession, toOffset - offset);
      var rest := TrancheClaims(id, tranches[1..], possession, toOffset - offset);
      var claims := TrancheClaims(id, tranches, possession, toOffset);
      assert offset < tranches[0].amount ==> claims[1..] == rest;
    }
  }

  lemma SortedSharesDated(t: Tenant)
    requires if t.depositTranches == [] then t.fixedDate.Some? else AllDated(t.depositTranches)
    ensures AllDated(TranchesOf(t))
  {
    forall x | x in TranchesOf(t) && t.depositTranches != []
      ensures x.fixedDate.Some?
    {
      var dated := Filter(t.depositTranches, IsDated);
      StableSortSorts(dated, FixedDateOf);
      FilterMember(t.depositTranches, IsDated, x);
      FilterMember(t.depositTranches, IsUndated, x);
      assert x in StableSort(dated, FixedDateOf) <==> x in multiset(StableSort(dated, FixedDateOf));
      assert x in dated <==> x in multiset(dated);
    }
  }

  /** A tenant with a timely demand, whose deposit or whose every share has a fixed date, gets it all back out of
      proceeds that cover everything, and the buyer takes over nothing. */
  lemma AmplePaysAll(c: Case, i: nat)
    requires DistinctIds(c) && Distribute(c).Success? && CoversAll(c)
    requires i < |c.tenants| && c.PriorityOf(c.tenants[i]).distributionDemandEffective
    requires var t := c.tenants[i]; if t.depositTranches == [] then t.fixedDate.Some? else AllDated(t.depositTranches)
    ensures var o := Distribute(c).value.outcomes;
            && |o| == |c.tenants| && o[i].totalReceived == c.tenants[i].depositAmount && o[i].assumedAmount == 0
  {
    hide BookTwo, BookOne, PriorityClaims, ParticipantsOf, DistinctIds, AnalysesOf, Claimed, PaidIn, PayClaims, PaidTo,
         TrancheClaims, ErrorOf, CoversAll, AllDated, TranchesOf, TranchesMatch;
    var t, b := c.tenants[i], BookTwo(c);
    var claims := PriorityClaims(c, b);
    DistinctTenantsOf(c);
    ParticipantsName(c, t);
    ParticipantOffsets(c);
    BookTwoTo(c, t);
    LastStageCovered(c);
    ClaimsOfTenant(c, b, t);
    CoveredClaimsArePaid(b.remaining, claims, t.id);
    NoMismatch(c.Participants());
    ErrorMeansMismatch(c);
    TranchesCoverDeposit(t);
    SortedSharesDated(t);
    DatedClaimEverything(t.id, TranchesOf(t), c.PriorityOf(t).possessionRightDate, b.Offset(t.id));
    PayClaimsTo(b, claims, t.id);
    NoOverpayment(c, i);
    EntriesOf(c);
  }

  lemma ErrorMeansMismatch(c: Case)
    requires Distribute(c).Success?
    ensures ErrorOf(c).None? && FirstMismatch(c.Participants()).None?
  {
    hide BookThree;
  }

  lemma DistinctTenantsOf(c: Case)
    requires DistinctIds(c)
    ensures DistinctTenants(c.tenants)
  {
  }

  lemma EntriesOf(c: Case)
    requires Distribute(c).Success?
    ensures Distribute(c).value.entries == PayClaims(BookTwo(c), PriorityClaims(c, BookTwo(c))).entries
  {
  }

  // ---- the other extreme

  /** Out of no proceeds nobody gets anything, and whoever can oppose the buyer keeps the whole deposit against him. */
  lemma NoProceedsPayNobody(c: Case, i: nat)
    requires DistinctIds(c) && Distribute(c).Success? && i < |c.tenants| && c.saleAmount <= c.auctionCost
    ensures var o := Distribute(c).value.outcomes;
            && |o| == |c.tenants| && o[i].totalReceived == 0
            && o[i].assumedAmount == if c.PriorityOf(c.tenants[i]).hasPriority then c.tenants[i].depositAmount else 0
  {
    hide BookTwo, BookOne, PriorityClaims, ParticipantsOf, DistinctIds, AnalysesOf, Claimed, PayClaims, PaidTo, ErrorOf,
         TaxTotal;
    var t := c.tenants[i];
    NothingInStageOne(c, t);
    BookTwoRemaining(c);
    BookTwoTo(c, t);
    PayClaimsTo(BookTwo(c), PriorityClaims(c, BookTwo(c)), t.id);
    NoOverpayment(c, i);
    OutcomeHasPriority(c, i);
    EntriesOf(c);
  }

  lemma NothingInStageOne(c: Case, t: Tenant)
    requires DistinctIds(c) && t in c.tenants && c.saleAmount <= c.auctionCost
    ensures BookOne(c).remaining == 0 && BookTwo(c) == BookOne(c) && BookOne(c).Received(t.id) == 0
  {
    hide StageOne, SmallClaimsIn, ParticipantsOf, AnalysesOf, PaidTo, TotalPaid, TotalEntitlement, DistinctIds;
    DistinctTenantsOf(c);
    StageOneTotal(0, SmallClaimsIn(c));
    BookOneTo(c, t);
    NothingShared(c, t);
  }

  lemma NothingShared(c: Case, t: Tenant)
    requires DistinctTenants(c.tenants) && t in c.tenants && c.saleAmount <= c.auctionCost
    ensures PaidTo(BookOne(c).entries, t.id) == 0
  {
    var claims := SmallClaimsIn(c);
    var total := TotalEntitlement(claims);
    hide SmallClaimsIn, PaySmall, PaidTo, ShareOf;
    SmallClaimsInCase(c);
    assert PaidTo([], t.id) == 0 by { NothingLogged(t.id); }
    if total > 0 {
      PaySmallTo(OpeningBook(0), claims, 0, total, t.id);
      if k :| 0 <= k < |claims| && claims[k].tenant.id == t.id {
        ShareOfClaim(claims, 0, total, k);
      } else {
        ShareOfNone(claims, 0, total, t.id);
      }
    }
  }

  lemma NothingLogged(id: string)
    ensures PaidTo([], id) == 0
  {
  }

  lemma OutcomeHasPriority(c: Case, i: nat)
    requires Distribute(c).Success? && i < |c.tenants|
    ensures |Distribute(c).value.outcomes| == |c.tenants|
    ensures Distribute(c).value.outcomes[i].hasPriority == c.PriorityOf(c.tenants[i]).hasPriority
  {
    hide ErrorOf, BookThree;
  }

  // ---- one such case for every list of tenants

  /** Proceeds of exactly the deposits, an entry of the baseline date, and a commencement that has a decree. */
  function AmpleCase(tenants: seq<Tenant>, baselineDate: Date, deadline: Date): Case {
    Case(TotalDeposits(tenants), 0,
         [RegisteredRight("r", AuctionCommencement, Max(baselineDate, 20240101), None),
          RegisteredRight("s", Seizure, baselineDate, None)],
         tenants, [], Seoul, baselineDate, deadline, None)
  }

  /** The same case without proceeds. */
  function PoorCase(tenants: seq<Tenant>, baselineDate: Date, deadline: Date): Case {
    AmpleCase(tenants, baselineDate, deadline).(saleAmount := 0)
  }

  ghost predicate Undivided(tenants: seq<Tenant>) {
    forall i :: 0 <= i < |tenants| ==> tenants[i].depositTranches == [] && tenants[i].fixedDate.Some?
  }

  lemma {:induction false} ParticipantsWithinDeposits(tenants: seq<Tenant>, analysed: map<string, TenantPriorityResult>)
    ensures TotalDeposits(ParticipantsOf(tenants, analysed)) <= TotalDeposits(tenants)
  {
    if tenants != [] {
      ParticipantsWithinDeposits(tenants[1..], analysed);
      var rest := ParticipantsOf(tenants[1..], analysed);
      assert ([tenants[0]] + rest)[1..] == rest && [] + rest == rest;
    }
  }

  lemma AmpleCovers(tenants: seq<Tenant>, baselineDate: Date, deadline: Date)
    ensures CoversAll(AmpleCase(tenants, baselineDate, deadline))
  {
    hide TotalDeposits, AnalysesOf;
    var c := AmpleCase(tenants, baselineDate, deadline);
    ParticipantsWithinDeposits(c.tenants, c.Analysed());
    assert c.rights[1..] == [c.rights[1]] && c.rights[1..][1..] == [];
    assert Sum(c.rights[1..][1..], RightDue) == 0 && Sum(c.rights[1..], RightDue) == 0;
    assert Sum(c.rights, RightDue) == 0 && Sum(c.taxes, TaxDue) == 0;
  }

  lemma AmpleRuns(tenants: seq<Tenant>, baselineDate: Date, deadline: Date)
    requires DistinctTenants(tenants) && Undivided(tenants)
    requires forall i :: 0 <= i < |tenants| ==> tenants[i].id != "r" && tenants[i].id != "s"
    ensures var c := AmpleCase(tenants, baselineDate, deadline); DistinctIds(c) && Distribute(c).Success?
    ensures var c := PoorCase(tenants, baselineDate, deadline); DistinctIds(c) && Distribute(c).Success?
  {
    hide AnalysesOf, StageOne, BookThree, TenantClaims, FindApplicableRule, TotalDeposits;
    var c := AmpleCase(tenants, baselineDate, deadline);
    assert c.rights[1..] == [c.rights[1]] && c.rights[1..][1..] == [];
    assert EarliestCollateral(c.rights[1..][1..]) == None && EarliestCollateral(c.rights[1..]) == None;
    assert ResolveMortgageReferenceDate(c.rights) == Some(Max(baselineDate, 20240101));
    RuleSince2024(Max(baselineDate, 20240101));
    NoMismatch(c.Participants());
    forall i | 0 <= i < |c.Participants()|
      ensures TranchesMatch(c.Participants()[i])
    {
      ParticipantsAreTenants(c.tenants, c.Analysed(), c.Participants()[i]);
    }
  }

  lemma RuleSince2024(date: Date)
    requires 20240101 <= date
    ensures FindApplicableRule(date).Some?
  {
    LatestRuleIsLatest(RULES, date);
    assert RULES[0] in RULES;
  }

  lemma AmpleIsRequest(tenants: seq<Tenant>, baselineDate: Date, deadline: Date)
    requires ValidDate(baselineDate) && ValidDate(deadline)
    requires forall t :: t in tenants ==> TenantIsDated(t)
    ensures IsRequest(AmpleCase(tenants, baselineDate, deadline))
    ensures IsRequest(PoorCase(tenants, baselineDate, deadline))
  {
    hide TenantIsDated, TotalDeposits;
    var c := AmpleCase(tenants, baselineDate, deadline);
    BaselineOfTwo(c.rights[0], c.rights[1]);
    DateParts(2024, 1, 1);
  }
}

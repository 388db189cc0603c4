/** One case run twice: with the property-tax relief for tenants and without it. */
module DistributionRelief {
  import opened Collections
  import opened RightsTypes
  import opened SmallDeposit
  import opened TenantPriority
  import opened Distribution
  import opened DistributionStages
  import opened DistributionLaws
  import opened BaselineRight
  import opened ClaimReduction

  /** `on` and `off` are one case, decided after and before the relief came into force. */
  ghost predicate SameCaseWithAndWithout(on: Case, off: Case) {
    && on.ReliefApplies() && !off.ReliefApplies()
    && off == on.(saleDecisionDate := off.saleDecisionDate)
  }

  // ---- stage 2

  /** From equal cash, a tax leaves equal cash, and with relief it is paid no more. */
  lemma {:induction false} TaxesGainNothing(
    on: Book, off: Book, claims: seq<TaxClaim>, tenants: seq<Tenant>, id: string)
    requires 0 <= on.remaining == off.remaining
    requires PaidTo(on.entries, id) <= PaidTo(off.entries, id)
    requires forall i :: 0 <= i < |tenants| ==> tenants[i].id != id
    ensures PaidTo(PayTaxes(on, claims, tenants, true).entries, id)
            <= PaidTo(PayTaxes(off, claims, tenants, false).entries, id)
    decreases |claims|
  {
    hide PaidTo, TotalPaid, PayTax;
    if claims != [] && 0 < on.remaining {
      PayTaxTotals(on, claims[0], tenants, true);
      PayTaxTotals(off, claims[0], tenants, false);
      PayReliefTotals(on, tenants, claims[0].statutoryDate, AmountOf(claims[0]));
      PayTaxLog(on, claims[0], tenants, true, id);
      PayTaxLog(off, claims[0], tenants, false, id);
      TaxesGainNothing(PayTax(on, claims[0], tenants, true), PayTax(off, claims[0], tenants, false),
                       claims[1..], tenants, id);
    }
  }

  // ---- the claims of one case under both regimes

  /** A larger set-off shrinks the claims by no more than it grew. */
  lemma {:induction false} LargerOffset(
    id: string, tranches: seq<DepositTranche>, possession: Date, offsetOn: int, offsetOff: int)
    requires 0 <= offsetOff <= offsetOn
    ensures var on := TrancheClaims(id, tranches, possession, offsetOn);
            var off := TrancheClaims(id, tranches, possession, offsetOff);
            Reduced(PriorityTenant, on, off) && Claimed(off, id) - Claimed(on, id) <= offsetOn - offsetOff
  {
    if tranches != [] {
      var a := tranches[0].amount;
      LargerOffset(id, tranches[1..], possession, offsetOn - Min(offsetOn, a), offsetOff - Min(offsetOff, a));
    }
  }

  ghost predicate LargerOffsets(tenants: seq<Tenant>, on: Book, off: Book) {
    forall i :: 0 <= i < |tenants| ==> 0 <= off.Offset(tenants[i].id) <= on.Offset(tenants[i].id)
  }

  lemma {:induction false} TenantClaimsReduced(c: Case, c': Case, tenants: seq<Tenant>, on: Book, off: Book)
    requires forall t :: t in tenants ==> c'.PriorityOf(t) == c.PriorityOf(t)
    requires LargerOffsets(tenants, on, off)
    ensures Reduced(PriorityTenant, TenantClaims(c, tenants, on), TenantClaims(c', tenants, off))
  {
    if tenants != [] {
      var t := tenants[0];
      LargerOffset(t.id, TranchesOf(t), c.PriorityOf(t).possessionRightDate, on.Offset(t.id), off.Offset(t.id));
      TenantClaimsReduced(c, c', tenants[1..], on, off);
      ReducedAppend(PriorityTenant, OwnClaims(c, t, on), OwnClaims(c', t, off),
                    TenantClaims(c, tenants[1..], on), TenantClaims(c', tenants[1..], off));
    }
  }

  lemma {:induction false} OtherClaimsStand(rights: seq<RegisteredRight>, taxes: seq<TaxClaim>)
    ensures Reduced(PriorityTenant, RightClaims(rights), RightClaims(rights))
    ensures Reduced(PriorityTenant, OrdinaryTaxClaims(taxes), OrdinaryTaxClaims(taxes))
  {
    RightClaimsShape(rights);
    OrdinaryTaxClaimsShape(taxes);
    ReducedRefl(PriorityTenant, RightClaims(rights));
    ReducedRefl(PriorityTenant, OrdinaryTaxClaims(taxes));
  }

  lemma PriorityClaimsReduced(on: Case, off: Case, b: Book, b': Book)
    requires SameCaseWithAndWithout(on, off)
    requires LargerOffsets(on.Participants(), b, b')
    ensures Reduced(PriorityTenant, PriorityClaims(on, b), PriorityClaims(off, b'))
  {
    var tenants := on.Participants();
    var rights, taxes := RightClaims(on.rights), OrdinaryTaxClaims(on.taxes);
    var own, own' := TenantClaims(on, tenants, b), TenantClaims(off, tenants, b');
    hide TenantClaims, RightClaims, OrdinaryTaxClaims, StableSort, LargerOffsets, ParticipantsOf;
    TenantClaimsReduced(on, off, tenants, b, b');
    OtherClaimsStand(on.rights, on.taxes);
    ReducedAppend(PriorityTenant, own, own', rights, rights);
    ReducedAppend(PriorityTenant, own + rights, own' + rights, taxes, taxes);
    ReducedSort(PriorityTenant, UnsortedClaims(on, b), UnsortedClaims(off, b'));
  }

  lemma SameStart(on: Case, off: Case)
    requires SameCaseWithAndWithout(on, off)
    ensures BookOne(on) == BookOne(off)
    ensures BookTwo(on) == PayTaxes(BookOne(on), PropertyTaxes(on.taxes), on.Participants(), true)
    ensures BookTwo(off) == PayTaxes(BookOne(on), PropertyTaxes(on.taxes), on.Participants(), false)
    ensures BookThree(on) == PayClaims(BookTwo(on), PriorityClaims(on, BookTwo(on)))
    ensures BookThree(off) == PayClaims(BookTwo(off), PriorityClaims(off, BookTwo(off)))
    ensures on.Participants() == off.Participants() && on.taxes == off.taxes && on.rights == off.rights
    ensures DistinctIds(on) ==> DistinctIds(off)
  {
  }

  lemma OffsetsCompared(on: Case, off: Case, t: Tenant)
    requires SameCaseWithAndWithout(on, off) && DistinctIds(on) && t in on.tenants
    ensures 0 <= BookTwo(off).Offset(t.id) <= BookTwo(on).Offset(t.id)
    ensures BookTwo(on).Offset(t.id) - BookTwo(off).Offset(t.id)
            == PaidTo(BookTwo(on).entries, t.id) - PaidTo(BookTwo(off).entries, t.id)
  {
    hide PaidTo, TotalPaid, PayTax, StageOne, BookOne, BookTwo, BookThree, DistinctIds, PropertyTaxes, PayTaxes,
         PriorityClaims;
    SameStart(on, off);
    BookTwoTo(on, t);
    BookTwoTo(off, t);
    BookOneTo(on, t);
    ParticipantsName(on, t);
    PropertyTaxesNotTenants(on, t);
    PayTaxesTo(BookOne(on), PropertyTaxes(on.taxes), on.Participants(), true, t);
    PayTaxesTo(BookOne(on), PropertyTaxes(on.taxes), on.Participants(), false, t);
  }

  lemma AllOffsetsCompared(on: Case, off: Case)
    requires SameCaseWithAndWithout(on, off) && DistinctIds(on)
    ensures LargerOffsets(on.Participants(), BookTwo(on), BookTwo(off))
  {
    var tenants := on.Participants();
    forall i | 0 <= i < |tenants|
      ensures 0 <= BookTwo(off).Offset(tenants[i].id) <= BookTwo(on).Offset(tenants[i].id)
    {
      ParticipantsAreTenants(on.tenants, on.Analysed(), tenants[i]);
      OffsetsCompared(on, off, tenants[i]);
    }
  }

  /** Relief moves money only between property taxes and tenants: what it leaves for the last stage is
      what is left of stage 1 after all known property taxes, with or without it. */
  lemma ReliefKeepsTheRemainder(on: Case, off: Case)
    requires SameCaseWithAndWithout(on, off)
    ensures BookTwo(on).remaining == BookTwo(off).remaining
            == Max(0, BookOne(on).remaining - TaxTotal(PropertyTaxes(on.taxes)))
  {
    hide BookOne, BookTwo, BookThree, TaxTotal, PropertyTaxes, PriorityClaims, DistinctIds;
    SameStart(on, off);
    BookTwoRemaining(on);
    BookTwoRemaining(off);
  }

  lemma PropertyTaxesPayForRelief(on: Case, off: Case, tax: TaxClaim)
    requires SameCaseWithAndWithout(on, off) && DistinctIds(on)
    requires tax in on.taxes && tax.isPropertyTax
    ensures PaidTo(BookThree(on).entries, tax.id) <= PaidTo(BookThree(off).entries, tax.id)
  {
    SameStart(on, off);
    hide *;
    PropertyTaxLog(on, tax);
    PropertyTaxLog(off, tax);
    BookTwoRemaining(on);
    TaxesGainNothing(BookOne(on), BookOne(on), PropertyTaxes(on.taxes), on.Participants(), tax.id);
  }

  lemma LastStagesReduced(on: Case, off: Case)
    requires SameCaseWithAndWithout(on, off) && DistinctIds(on)
    ensures Reduced(PriorityTenant, PriorityClaims(on, BookTwo(on)), PriorityClaims(off, BookTwo(off)))
    ensures 0 <= BookTwo(off).remaining == BookTwo(on).remaining
  {
    SameStart(on, off);
    hide *;
    AllOffsetsCompared(on, off);
    ReliefKeepsTheRemainder(on, off);
    BookTwoNonNegative(off);
    PriorityClaimsReduced(on, off, BookTwo(on), BookTwo(off));
  }

  lemma BookTwoNonNegative(c: Case)
    ensures 0 <= BookTwo(c).remaining
  {
    hide BookOne, BookTwo, TaxTotal, PropertyTaxes;
    BookTwoRemaining(c);
  }

  /** Both last stages side by side, for any claimant with no negative claim. */
  lemma LastStagesCompared(on: Case, off: Case, id: string)
    requires SameCaseWithAndWithout(on, off) && DistinctIds(on)
    requires NonNegativeClaims(PriorityClaims(on, BookTwo(on)), id)
    ensures var b, b' := BookTwo(on), BookTwo(off);
            var claims, claims' := PriorityClaims(on, b), PriorityClaims(off, b');
            && PaidTo(BookThree(on).entries, id) == PaidTo(b.entries, id) + PaidIn(b.remaining, claims, id)
            && PaidTo(BookThree(off).entries, id) == PaidTo(b'.entries, id) + PaidIn(b'.remaining, claims', id)
            && PaidIn(b'.remaining, claims', id)
               <= PaidIn(b.remaining, claims, id) + Claimed(claims', id) - Claimed(claims, id)
  {
    var b, b' := BookTwo(on), BookTwo(off);
    SameStart(on, off);
    hide *;
    LastStagesReduced(on, off);
    ReducedPays(PriorityTenant, b.remaining, b'.remaining, PriorityClaims(on, b), PriorityClaims(off, b'), id);
    PayClaimsTo(b, PriorityClaims(on, b), id);
    PayClaimsTo(b', PriorityClaims(off, b'), id);
  }

  lemma NoLessIsLeft(on: Case, off: Case)
    requires SameCaseWithAndWithout(on, off) && DistinctIds(on)
    ensures BookThree(off).remaining <= BookThree(on).remaining
  {
    var b, b' := BookTwo(on), BookTwo(off);
    SameStart(on, off);
    hide *;
    LastStagesReduced(on, off);
    ReducedLeaves(PriorityTenant, b.remaining, b'.remaining, PriorityClaims(on, b), PriorityClaims(off, b'));
    PayClaimsLeaves(b, PriorityClaims(on, b));
    PayClaimsLeaves(b', PriorityClaims(off, b'));
  }

  lemma TenantGains(on: Case, off: Case, t: Tenant)
    requires SameCaseWithAndWithout(on, off) && DistinctIds(on)
    requires t in on.tenants
    ensures PaidTo(BookThree(off).entries, t.id) <= PaidTo(BookThree(on).entries, t.id)
  {
    var b, b' := BookTwo(on), BookTwo(off);
    SameStart(on, off);
    hide PaidTo, BookTwo, BookThree, BookOne, PaidIn, Claimed, PriorityClaims, Reduced, TrancheClaims, DistinctIds,
         NonNegativeClaims;
    ParticipantOffsets(on);
    ParticipantOffsets(off);
    ClaimsOfTenant(on, b, t);
    ClaimsOfTenant(off, b', t);
    LastStagesCompared(on, off, t.id);
    OffsetsCompared(on, off, t);
    LargerOffset(t.id, TranchesOf(t), on.PriorityOf(t).possessionRightDate, b.Offset(t.id), b'.Offset(t.id));
  }

  /** The id of a registered right or of a tax that is no property tax. */
  ghost predicate IsOtherCreditor(c: Case, id: string) {
    || (exists r :: r in c.rights && r.id == id)
    || (exists x :: x in c.taxes && !x.isPropertyTax && x.id == id)
  }

  /** No registered right of this id has a negative amount. */
  ghost predicate OwesNothing(c: Case, id: string) {
    forall r :: r in c.rights && r.id == id && r.amount.Some? ==> 0 <= r.amount.value
  }

  lemma OtherCreditorGains(on: Case, off: Case, id: string)
    requires SameCaseWithAndWithout(on, off) && DistinctIds(on)
    requires IsOtherCreditor(on, id) && OwesNothing(on, id)
    ensures PaidTo(BookThree(off).entries, id) <= PaidTo(BookThree(on).entries, id)
  {
    SameStart(on, off);
    CreditorIsNoPropertyTax(on, id);
    hide *;
    var taxes, tenants := PropertyTaxes(on.taxes), on.Participants();
    ParticipantOffsets(on);
    CreditorClaimsNonNegative(on, BookTwo(on), id);
    LastStagesCompared(on, off, id);
    LastStagesReduced(on, off);
    PayTaxesLog(BookOne(on), taxes, tenants, true, id);
    PayTaxesLog(BookOne(on), taxes, tenants, false, id);
    ParticipantOffsets(off);
    CreditorClaimsAreFixed(off, BookTwo(off), id);
    ReducedClaims(PriorityTenant, PriorityClaims(on, BookTwo(on)), PriorityClaims(off, BookTwo(off)), id);
  }

  lemma {:induction false} RightClaimsOf(rights: seq<RegisteredRight>, claim: PriorityClaim)
    requires claim in RightClaims(rights)
    ensures exists r :: r in rights && r.id == claim.claimantId && r.amount == Some(claim.remainingClaim)
  {
    if rights[0].amount == Some(claim.remainingClaim) && rights[0].id == claim.claimantId {
      assert rights[0] in rights;
    } else {
      RightClaimsOf(rights[1..], claim);
      var r :| r in rights[1..] && r.id == claim.claimantId && r.amount == Some(claim.remainingClaim);
      assert r in rights;
    }
  }

  lemma CreditorClaimsNonNegative(c: Case, b: Book, id: string)
    requires OwesNothing(c, id) && OffsetsNonNegative(c.Participants(), b)
    ensures NonNegativeClaims(PriorityClaims(c, b), id)
  {
    var claims := PriorityClaims(c, b);
    forall i | 0 <= i < |claims| && claims[i].claimantId == id
      ensures 0 <= claims[i].remainingClaim
    {
      SortedClaimsMember(UnsortedClaims(c, b), claims[i]);
      TenantClaimsShape(c, c.Participants(), b);
      OrdinaryTaxClaimsShape(c.taxes);
      if claims[i] in RightClaims(c.rights) {
        RightClaimsOf(c.rights, claims[i]);
      }
    }
  }

  lemma CreditorIsNoPropertyTax(c: Case, id: string)
    requires DistinctIds(c) && IsOtherCreditor(c, id)
    ensures forall i :: 0 <= i < |PropertyTaxes(c.taxes)| ==> PropertyTaxes(c.taxes)[i].id != id
    ensures forall i :: 0 <= i < |c.Participants()| ==> c.Participants()[i].id != id
  {
    var taxes := PropertyTaxes(c.taxes);
    StageOneOnlyTenants(c, id);
    forall i | 0 <= i < |taxes|
      ensures taxes[i].id != id
    {
      PropertyTaxesAreTaxes(c.taxes, taxes[i]);
      if x :| x in c.taxes && !x.isPropertyTax && x.id == id {
        var j :| 0 <= j < |c.taxes| && c.taxes[j] == taxes[i];
        var k :| 0 <= k < |c.taxes| && c.taxes[k] == x;
      }
    }
  }

  lemma CreditorClaimsAreFixed(c: Case, b: Book, id: string)
    requires forall i :: 0 <= i < |c.Participants()| ==> c.Participants()[i].id != id
    requires OffsetsNonNegative(c.Participants(), b)
    ensures var claims := PriorityClaims(c, b);
            forall i :: 0 <= i < |claims| && claims[i].claimantId == id ==> !claims[i].kind.PriorityTenant?
  {
    var claims := PriorityClaims(c, b);
    forall i | 0 <= i < |claims| && claims[i].claimantId == id
      ensures !claims[i].kind.PriorityTenant?
    {
      SortedClaimsMember(UnsortedClaims(c, b), claims[i]);
      TenantClaimsShape(c, c.Participants(), b);
      RightClaimsShape(c.rights);
      OrdinaryTaxClaimsShape(c.taxes);
    }
  }

  /** Relief is paid for by property taxes alone: no property tax receives more, nobody else receives less, no
      buyer takes over more, and no less is left at the end. A registered right of negative amount hands money
      back and is the one exception. */
  lemma ReliefHarmsOnlyPropertyTaxes(on: Case, off: Case)
    requires SameCaseWithAndWithout(on, off) && DistinctIds(on)
    requires Distribute(on).Success?
    ensures Distribute(off).Success?
    ensures var r, r' := Distribute(on).value, Distribute(off).value;
            && (forall x :: x in on.taxes && x.isPropertyTax ==> PaidTo(r.entries, x.id) <= PaidTo(r'.entries, x.id))
            && (forall id :: IsOtherCreditor(on, id) && OwesNothing(on, id) ==>
                  PaidTo(r'.entries, id) <= PaidTo(r.entries, id))
            && (forall t :: t in on.tenants ==> PaidTo(r'.entries, t.id) <= PaidTo(r.entries, t.id))
            && (forall i :: 0 <= i < |on.tenants| ==> r.outcomes[i].assumedAmount <= r'.outcomes[i].assumedAmount)
            && r'.remainingAfterAll <= r.remainingAfterAll
  {
    hide PaidTo, BookTwo, BookThree, BookOne, IsOtherCreditor, OwesNothing, ErrorOf, DistinctIds, Outcomes,
         PriorityClaims, PropertyTaxes;
    BothSucceed(on, off);
    NoLessIsLeft(on, off);
    forall x | x in on.taxes && x.isPropertyTax { PropertyTaxesPayForRelief(on, off, x); }
    forall id | IsOtherCreditor(on, id) && OwesNothing(on, id) { OtherCreditorGains(on, off, id); }
    forall t | t in on.tenants { TenantGains(on, off, t); }
    forall i | 0 <= i < |on.tenants| { BuyerGains(on, off, i); }
  }

  lemma BuyerGains(on: Case, off: Case, i: nat)
    requires SameCaseWithAndWithout(on, off) && DistinctIds(on) && i < |on.tenants|
    requires Distribute(on).Success? && Distribute(off).Success?
    ensures Distribute(on).value.outcomes[i].assumedAmount <= Distribute(off).value.outcomes[i].assumedAmount
  {
    hide PaidTo, BookTwo, BookThree, BookOne, ErrorOf, DistinctIds, PriorityClaims, PropertyTaxes, AnalysesOf;
    BothSucceed(on, off);
    TenantGains(on, off, on.tenants[i]);
    NoOverpayment(on, i);
    NoOverpayment(off, i);
    assert on.PriorityOf(on.tenants[i]) == off.PriorityOf(on.tenants[i]);
  }

  lemma BothSucceed(on: Case, off: Case)
    requires SameCaseWithAndWithout(on, off) && Distribute(on).Success?
    ensures Distribute(off).Success? && ErrorOf(on).None? && ErrorOf(off).None?
    ensures DistinctIds(on) ==> DistinctIds(off)
    ensures off.tenants == on.tenants
  {
    hide BookThree, Outcomes;
  }

  // ---- the exception

  /** One tenant, one property tax of a won, and a later right of minus one won. */
  function NegativeCase(decided: Date): Case {
    Case(3_000_002, 0,
         [RegisteredRight("c", AuctionCommencement, 19840614, None),
          RegisteredRight("r", Seizure, 20250101, Some(-1))],
         [Tenant("t", 20190101, Some(20200101), 3_000_001, [], true, Some(20240101))],
         [TaxClaim("x", true, 20210101, Some(1))],
         Seoul, 19840614, 20240101, Some(decided))
  }

  lemma NegativeStages(decided: Date)
    ensures var c := NegativeCase(decided);
            && c.Participants() == c.tenants && PropertyTaxes(c.taxes) == c.taxes && OrdinaryTaxClaims(c.taxes) == []
            && BookOne(c) == OpeningBook(3_000_002)
            && RightClaims(c.rights) == [PriorityClaim("r", RightHolder, 20250101, -1)]
  {
    var c := NegativeCase(decided);
    var t, x := c.tenants[0], c.taxes[0];
    OwnPriority(c, t);
    assert c.tenants[1..] == [] && c.taxes[1..] == [];
    assert ParticipantsOf(c.tenants[1..], c.Analysed()) == [];
    assert Filter(c.taxes[1..], IsKnownPropertyTax) == [];
    assert StableSort(c.taxes[1..], StatutoryDateOf) == [];
    assert OrdinaryTaxClaims(c.taxes[1..]) == [];
    assert c.rights[1..] == [c.rights[1]] && c.rights[1..][1..] == [];
    assert RightClaims(c.rights[1..][1..]) == [];
    assert EarliestCollateral(c.rights[1..][1..]) == None;
    assert ResolveMortgageReferenceDate(c.rights) == Some(19840614);
    FirstDecree();
    assert SmallClaimsOf(c.tenants[1..], RULES[0], Seoul) == [];
    assert SmallClaimsIn(c) == [];
  }

  lemma NegativeTwo(decided: Date)
    ensures var c := NegativeCase(decided);
            && BookTwo(c).remaining == 3_000_001 && PaidTo(BookTwo(c).entries, "r") == 0
            && BookTwo(c).Offset("t") == if c.ReliefApplies() then 1 else 0
  {
    var c := NegativeCase(decided);
    var t, x := c.tenants[0], c.taxes[0];
    NegativeStages(decided);
    var b := OpeningBook(3_000_002);
    assert c.taxes[1..] == [] && c.tenants[1..] == [];
    PayRecords(b, "t", PriorityTenant, 1, "r");
    PayRecords(b, "x", TaxAuthority, 1, "r");
    assert PaidTo(b.entries, "r") == 0;
    hide PaidTo, BookOne, PropertyTaxes, ParticipantsOf, AnalysesOf;
    if c.ReliefApplies() {
      assert Diverted(b, t, x.statutoryDate, 1) == 1;
      assert PayRelief(Divert(b, t, 1), [], x.statutoryDate, 0) == (b.PayAsRelief("t", 1), 0);
      assert PayRelief(b, c.tenants, x.statutoryDate, 1) == (b.PayAsRelief("t", 1), 0);
      assert PayTax(b, x, c.tenants, true) == b.PayAsRelief("t", 1);
      assert BookTwo(c) == b.PayAsRelief("t", 1);
    } else {
      assert PayTax(b, x, c.tenants, false) == b.Pay("x", TaxAuthority, 1);
      assert BookTwo(c) == b.Pay("x", TaxAuthority, 1);
    }
  }

  /** What the negative right gets: with relief the tenant's claim is smaller, the money lasts, and the right
      hands back its won; without relief the money is gone before. */
  lemma NegativeRightMayLose(on: Date, off: Date)
    requires off < PROPERTY_TAX_TENANT_RELIEF_FROM <= on
    ensures SameCaseWithAndWithout(NegativeCase(on), NegativeCase(off))
    ensures PaidTo(BookThree(NegativeCase(on)).entries, "r") == -1
    ensures PaidTo(BookThree(NegativeCase(off)).entries, "r") == 0
    ensures ValidDate(on) && ValidDate(off) ==> IsRequest(NegativeCase(on)) && IsRequest(NegativeCase(off))
  {
    if ValidDate(on) && ValidDate(off) {
      NegativeIsRequest(on);
      NegativeIsRequest(off);
    }
    hide BookThree, PaidTo, IsRequest, ValidDate;
    NegativeThree(on);
    NegativeThree(off);
  }

  lemma NegativeIsRequest(decided: Date)
    requires ValidDate(decided)
    ensures IsRequest(NegativeCase(decided))
  {
    var c := NegativeCase(decided);
    BaselineOfTwo(c.rights[0], c.rights[1]);
    DateParts(1984, 6, 14);
    DateParts(2025, 1, 1);
    DateParts(2024, 1, 1);
    DateParts(2021, 1, 1);
    DateParts(2020, 1, 1);
    DateParts(2019, 1, 1);
  }

  lemma NegativePossession(decided: Date)
    ensures NegativeCase(decided).PriorityOf(NegativeCase(decided).tenants[0]).possessionRightDate == 20190102
  {
    hide AddOneDay, AnalysesOf;
    NewYear2019();
    OwnPriority(NegativeCase(decided), NegativeCase(decided).tenants[0]);
  }

  lemma NewYear2019()
    ensures AddOneDay(20190101) == 20190102
  {
    DateParts(2019, 1, 1);
  }

  lemma NegativeClaims(decided: Date)
    ensures var c := NegativeCase(decided);
            PriorityClaims(c, BookTwo(c))
            == [PriorityClaim("t", PriorityTenant, 20200101, 3_000_001 - BookTwo(c).Offset("t")),
                PriorityClaim("r", RightHolder, 20250101, -1)]
  {
    hide BookTwo, PropertyTaxes, ParticipantsOf, AnalysesOf, TenantClaims, RightClaims, OrdinaryTaxClaims, StableSort,
         BookOne, PaidTo, OwnClaims, AddOneDay, DistinctTenants;
    var c := NegativeCase(decided);
    var t := c.tenants[0];
    NegativeStages(decided);
    NegativeTwo(decided);
    NegativePossession(decided);
    OwnUndivided(c, t, BookTwo(c));
    ClaimsOfOne(c, t, BookTwo(c));
    var own, right := UndividedClaim(c, t, BookTwo(c)), PriorityClaim("r", RightHolder, 20250101, -1);
    assert UnsortedClaims(c, BookTwo(c)) == [own, right];
    SortedPair(own, right);
  }

  lemma NegativeThree(decided: Date)
    ensures var c := NegativeCase(decided);
            PaidTo(BookThree(c).entries, "r") == if c.ReliefApplies() then -1 else 0
  {
    hide BookTwo, PropertyTaxes, ParticipantsOf, AnalysesOf, BookOne, PaidTo, PriorityClaims, PayClaims;
    var c := NegativeCase(decided);
    NegativeTwo(decided);
    NegativeClaims(decided);
    var claims := PriorityClaims(c, BookTwo(c));
    PayClaimsTo(BookTwo(c), claims, "r");
    assert claims[1..] == [claims[1]] && claims[1..][1..] == [];
    assert PaidIn(BookTwo(c).Offset("t"), claims[1..], "r") == -BookTwo(c).Offset("t");
  }
}

/** Tax claims whose amount is not known are left out of a run, and its assumed amounts are called lower bounds.
    When they are: exactly when the relief for tenants cannot reach such a tax. */
module UnknownTaxes {
  import opened Collections
  import opened RightsTypes
  import opened SmallDeposit
  import opened TenantPriority
  import opened Distribution
  import opened DistributionStages
  import opened DistributionLaws
  import opened ClaimReduction
  import opened BaselineRight

  // ---- less cash, the same taxes

  /** The poorer book is the other one cut off where its money ran out. */
  ghost predicate Poorer(p: Book, b: Book) {
    && p.small == b.small && 0 <= p.remaining <= b.remaining
    && (0 < p.remaining ==> p.relief == b.relief)
    && forall id :: Got(p.relief, id) <= Got(b.relief, id)
  }

  /** The same claims so far, with no more money left. */
  ghost predicate SamePurse(p: Book, b: Book) {
    p.small == b.small && p.relief == b.relief && 0 <= p.remaining <= b.remaining
  }

  lemma {:induction false} ReliefOnlyGrows(b: Book, tenants: seq<Tenant>, taxDate: Date, claimLeft: int, id: string)
    requires 0 <= b.remaining && 0 <= claimLeft
    ensures Got(b.relief, id) <= Got(PayRelief(b, tenants, taxDate, claimLeft).0.relief, id)
    decreases |tenants|
  {
    hide PaidTo, TotalPaid, Divert, Diverted;
    if tenants != [] && 0 < claimLeft && 0 < b.remaining {
      var paid := Diverted(b, tenants[0], taxDate, claimLeft);
      DivertLaws(b, tenants[0], taxDate, claimLeft, id);
      ReliefOnlyGrows(Divert(b, tenants[0], paid), tenants[1..], taxDate, claimLeft - paid, id);
    }
  }

  /** One diversion from less money: the same, or all there is. */
  lemma DivertPoorer(p: Book, b: Book, t: Tenant, taxDate: Date, claimLeft: int)
    requires SamePurse(p, b) && 0 < p.remaining && 0 < claimLeft
    ensures var paid, paid' := Diverted(b, t, taxDate, claimLeft), Diverted(p, t, taxDate, claimLeft);
            && 0 <= paid' <= paid <= claimLeft
            && (paid' == paid ==> SamePurse(Divert(p, t, paid'), Divert(b, t, paid)))
            && (paid' != paid ==> Divert(p, t, paid').remaining == 0)
            && Poorer(Divert(p, t, paid'), Divert(b, t, paid))
  {
  }

  lemma {:induction false} PayReliefPoorer(p: Book, b: Book, tenants: seq<Tenant>, taxDate: Date, claimLeft: int)
    requires SamePurse(p, b) && 0 <= claimLeft
    ensures var (p', left'), (b', left) := PayRelief(p, tenants, taxDate, claimLeft),
                                           PayRelief(b, tenants, taxDate, claimLeft);
            Poorer(p', b') && (0 < p'.remaining ==> left' == left)
    decreases |tenants|
  {
    hide Divert, Diverted;
    if tenants == [] || claimLeft <= 0 || p.remaining <= 0 {
      forall id { ReliefOnlyGrows(b, tenants, taxDate, claimLeft, id); }
      ReliefLeaves(b, tenants, taxDate, claimLeft);
    } else {
      var paid, paid' := Diverted(b, tenants[0], taxDate, claimLeft), Diverted(p, tenants[0], taxDate, claimLeft);
      var q, c := Divert(p, tenants[0], paid'), Divert(b, tenants[0], paid);
      DivertPoorer(p, b, tenants[0], taxDate, claimLeft);
      if paid' == paid {
        PayReliefPoorer(q, c, tenants[1..], taxDate, claimLeft - paid);
      } else {
        forall id { ReliefOnlyGrows(c, tenants[1..], taxDate, claimLeft - paid, id); }
        ReliefLeaves(c, tenants[1..], taxDate, claimLeft - paid);
      }
    }
  }

  lemma ReliefLeaves(b: Book, tenants: seq<Tenant>, taxDate: Date, claimLeft: int)
    requires 0 <= b.remaining && 0 <= claimLeft
    ensures var (b', left) := PayRelief(b, tenants, taxDate, claimLeft);
            0 <= b'.remaining && b'.small == b.small && 0 <= left
  {
    hide PayRelief;
    PayReliefTotals(b, tenants, taxDate, claimLeft);
  }

  lemma PayTaxPoorer(p: Book, b: Book, claim: TaxClaim, tenants: seq<Tenant>, relief: bool)
    requires SamePurse(p, b)
    ensures Poorer(PayTax(p, claim, tenants, relief), PayTax(b, claim, tenants, relief))
  {
    hide PayRelief;
    if relief {
      PayReliefPoorer(p, b, tenants, claim.statutoryDate, AmountOf(claim));
      ReliefLeaves(b, tenants, claim.statutoryDate, AmountOf(claim));
      ReliefLeaves(p, tenants, claim.statutoryDate, AmountOf(claim));
    }
  }

  lemma {:induction false} TaxesOnlyAdd(b: Book, claims: seq<TaxClaim>, tenants: seq<Tenant>, relief: bool)
    requires 0 <= b.remaining
    ensures var b' := PayTaxes(b, claims, tenants, relief);
            && 0 <= b'.remaining && b'.small == b.small
            && forall id :: Got(b.relief, id) <= Got(b'.relief, id)
    decreases |claims|
  {
    hide PayTax;
    if claims != [] && 0 < b.remaining {
      PayTaxPoorer(b.(remaining := 0), b, claims[0], tenants, relief);
      PayTaxTotals(b, claims[0], tenants, relief);
      BrokePaysNothing(b, claims[0], tenants, relief);
      TaxesOnlyAdd(PayTax(b, claims[0], tenants, relief), claims[1..], tenants, relief);
    }
  }

  lemma BrokePaysNothing(b: Book, claim: TaxClaim, tenants: seq<Tenant>, relief: bool)
    ensures PayTax(b.(remaining := 0), claim, tenants, relief) == b.(remaining := 0)
  {
  }

  lemma {:induction false} PayTaxesPoorer(p: Book, b: Book, claims: seq<TaxClaim>, tenants: seq<Tenant>, relief: bool)
    requires SamePurse(p, b)
    ensures Poorer(PayTaxes(p, claims, tenants, relief), PayTaxes(b, claims, tenants, relief))
    decreases |claims|
  {
    hide PayTax;
    if claims != [] && 0 < p.remaining {
      var q, c := PayTax(p, claims[0], tenants, relief), PayTax(b, claims[0], tenants, relief);
      PayTaxPoorer(p, b, claims[0], tenants, relief);
      if 0 < q.remaining {
        PayTaxesPoorer(q, c, claims[1..], tenants, relief);
      } else {
        TaxesOnlyAdd(c, claims[1..], tenants, relief);
      }
    } else {
      TaxesOnlyAdd(b, claims, tenants, relief);
    }
  }

  // ---- taxes the relief does not reach

  /** No tenant of an earlier fixed date stands before this tax. */
  ghost predicate Harmless(date: Date, tenants: seq<Tenant>, relief: bool) {
    relief ==> forall t :: t in tenants && t.fixedDate.Some? ==> date <= t.fixedDate.value
  }

  lemma {:induction false} NothingDiverted(b: Book, tenants: seq<Tenant>, taxDate: Date, claimLeft: int)
    requires Harmless(taxDate, tenants, true)
    ensures PayRelief(b, tenants, taxDate, claimLeft) == (b, claimLeft)
    decreases |tenants|
  {
    if tenants != [] && 0 < claimLeft && 0 < b.remaining {
      assert tenants[0] in tenants && forall t :: t in tenants[1..] ==> t in tenants;
      NothingDiverted(b, tenants[1..], taxDate, claimLeft);
    }
  }

  lemma HarmlessTax(b: Book, claim: TaxClaim, tenants: seq<Tenant>, relief: bool)
    requires 0 <= b.remaining && Harmless(claim.statutoryDate, tenants, relief)
    ensures var b' := PayTax(b, claim, tenants, relief);
            && b'.small == b.small && b'.relief == b.relief
            && b'.remaining == b.remaining - Min(b.remaining, AmountOf(claim))
  {
    if relief {
      NothingDiverted(b, tenants, claim.statutoryDate, AmountOf(claim));
    }
  }

  /** `more` is `less` with further taxes in between, none of which the relief reaches. */
  ghost predicate Extended(less: seq<TaxClaim>, more: seq<TaxClaim>, tenants: seq<Tenant>, relief: bool)
    decreases |more|
  {
    if more == [] then less == []
    else
      || (less != [] && less[0] == more[0] && Extended(less[1..], more[1..], tenants, relief))
      || (Harmless(more[0].statutoryDate, tenants, relief) && Extended(less, more[1..], tenants, relief))
  }

  /** Behind a tax that the relief does reach there are none but the same taxes. */
  lemma {:induction false} NoneAdded(less: seq<TaxClaim>, more: seq<TaxClaim>, tenants: seq<Tenant>, relief: bool,
                                     date: Date)
    requires Extended(less, more, tenants, relief) && !Harmless(date, tenants, relief)
    requires forall x :: x in more ==> date <= x.statutoryDate
    ensures less == more
    decreases |more|
  {
    if more != [] {
      assert more[0] in more && forall x :: x in more[1..] ==> x in more;
      if less != [] && less[0] == more[0] && Extended(less[1..], more[1..], tenants, relief) {
        NoneAdded(less[1..], more[1..], tenants, relief, date);
      } else {
        assert false;
      }
    }
  }

  lemma {:induction false} ExtendedPoorer(p: Book, b: Book, less: seq<TaxClaim>, more: seq<TaxClaim>,
                                          tenants: seq<Tenant>, relief: bool)
    requires SamePurse(p, b) && Extended(less, more, tenants, relief) && SortedBy(more, StatutoryDateOf)
    ensures Poorer(PayTaxes(p, more, tenants, relief), PayTaxes(b, less, tenants, relief))
    decreases |more|
  {
    hide PayTax, Harmless;
    if more == [] || p.remaining == 0 {
      TaxesOnlyAdd(b, less, tenants, relief);
    } else if less != [] && less[0] == more[0] && Extended(less[1..], more[1..], tenants, relief) {
      SameTaxPoorer(p, b, less, more, tenants, relief);
    } else {
      HarmlessTax(p, more[0], tenants, relief);
      ExtendedPoorer(PayTax(p, more[0], tenants, relief), b, less, more[1..], tenants, relief);
    }
  }

  lemma SameTaxPoorer(p: Book, b: Book, less: seq<TaxClaim>, more: seq<TaxClaim>, tenants: seq<Tenant>, relief: bool)
    requires SamePurse(p, b) && 0 < p.remaining && SortedBy(more, StatutoryDateOf)
    requires less != [] && more != [] && less[0] == more[0] && Extended(less[1..], more[1..], tenants, relief)
    ensures Poorer(PayTaxes(p, more, tenants, relief), PayTaxes(b, less, tenants, relief))
    decreases |more|, 0
  {
    hide PayTax, Harmless, Extended;
    if Harmless(more[0].statutoryDate, tenants, relief) {
      HarmlessTax(p, more[0], tenants, relief);
      HarmlessTax(b, more[0], tenants, relief);
      ExtendedPoorer(PayTax(p, more[0], tenants, relief), PayTax(b, more[0], tenants, relief), less[1..], more[1..],
                     tenants, relief);
    } else {
      NoneAdded(less[1..], more[1..], tenants, relief, more[0].statutoryDate);
      assert less == [less[0]] + less[1..] && more == [more[0]] + more[1..];
      PayTaxesPoorer(p, b, more, tenants, relief);
    }
  }

  lemma {:induction false} ExtendedStartsLater(less: seq<TaxClaim>, more: seq<TaxClaim>, tenants: seq<Tenant>,
                                               relief: bool)
    requires Extended(less, more, tenants, relief) && less != [] && more != [] && SortedBy(more, StatutoryDateOf)
    ensures StatutoryDateOf(more[0]) <= StatutoryDateOf(less[0])
    decreases |more|
  {
    if less[0] != more[0] {
      assert more[1..] != [];
      ExtendedStartsLater(less, more[1..], tenants, relief);
      assert more[1..][0] == more[1];
    }
  }

  lemma {:induction false} ExtendedInsertBoth(x: TaxClaim, less: seq<TaxClaim>, more: seq<TaxClaim>,
                                              tenants: seq<Tenant>, relief: bool)
    requires Extended(less, more, tenants, relief) && SortedBy(more, StatutoryDateOf)
    ensures Extended(Insert(x, less, StatutoryDateOf), Insert(x, more, StatutoryDateOf), tenants, relief)
    decreases |more|
  {
    hide Harmless;
    if more == [] || StatutoryDateOf(x) <= StatutoryDateOf(more[0]) {
      if more != [] && less != [] { ExtendedStartsLater(less, more, tenants, relief); }
      assert ([x] + less)[1..] == less && ([x] + more)[1..] == more;
    } else {
      var rest := Insert(x, more[1..], StatutoryDateOf);
      assert ([more[0]] + rest)[1..] == rest;
      if less != [] && less[0] == more[0] && Extended(less[1..], more[1..], tenants, relief) {
        ExtendedInsertBoth(x, less[1..], more[1..], tenants, relief);
        var rest' := Insert(x, less[1..], StatutoryDateOf);
        assert ([less[0]] + rest')[1..] == rest';
      } else {
        ExtendedInsertBoth(x, less, more[1..], tenants, relief);
      }
    }
  }

  lemma {:induction false} ExtendedInsertMore(y: TaxClaim, less: seq<TaxClaim>, more: seq<TaxClaim>,
                                              tenants: seq<Tenant>, relief: bool)
    requires Extended(less, more, tenants, relief) && Harmless(y.statutoryDate, tenants, relief)
    ensures Extended(less, Insert(y, more, StatutoryDateOf), tenants, relief)
    decreases |more|
  {
    hide Harmless;
    if more == [] || StatutoryDateOf(y) <= StatutoryDateOf(more[0]) {
      assert ([y] + more)[1..] == more;
    } else {
      var rest := Insert(y, more[1..], StatutoryDateOf);
      assert ([more[0]] + rest)[1..] == rest;
      if less != [] && less[0] == more[0] && Extended(less[1..], more[1..], tenants, relief) {
        ExtendedInsertMore(y, less[1..], more[1..], tenants, relief);
      } else {
        ExtendedInsertMore(y, less, more[1..], tenants, relief);
      }
    }
  }

  // ---- completing a case

  ghost predicate CompletesTax(x: TaxClaim, x': TaxClaim) {
    x'.(amount := x.amount) == x && (x.amount.Some? ==> x' == x)
  }

  ghost predicate CompletesTaxes(taxes: seq<TaxClaim>, taxes': seq<TaxClaim>) {
    |taxes'| == |taxes| && forall i :: 0 <= i < |taxes| ==> CompletesTax(taxes[i], taxes'[i])
  }

  /** The same case with amounts for some of the taxes that had none. */
  ghost predicate Completes(c: Case, c': Case) {
    c' == c.(taxes := c'.taxes) && CompletesTaxes(c.taxes, c'.taxes)
  }

  /** A property tax of unknown amount that a participant of an earlier fixed date would be paid out of. */
  ghost predicate Exposed(c: Case) {
    && c.ReliefApplies()
    && exists x, t :: x in c.taxes && t in c.Participants() && x.isPropertyTax && x.amount.None?
                      && t.fixedDate.Some? && t.fixedDate.value < x.statutoryDate
  }

  ghost predicate UnknownHarmless(taxes: seq<TaxClaim>, tenants: seq<Tenant>, relief: bool) {
    forall x :: x in taxes && x.isPropertyTax && x.amount.None? ==> Harmless(x.statutoryDate, tenants, relief)
  }

  lemma {:induction false} PropertyTaxesExtended(taxes: seq<TaxClaim>, taxes': seq<TaxClaim>, tenants: seq<Tenant>,
                                                 relief: bool)
    requires CompletesTaxes(taxes, taxes') && UnknownHarmless(taxes, tenants, relief)
    ensures Extended(PropertyTaxes(taxes), PropertyTaxes(taxes'), tenants, relief)
  {
    hide Harmless;
    if taxes != [] {
      var x, x' := taxes[0], taxes'[0];
      assert CompletesTax(x, x') && x in taxes && forall y :: y in taxes[1..] ==> y in taxes;
      assert forall i :: 0 <= i < |taxes[1..]| ==> taxes[1..][i] == taxes[i + 1] && taxes'[1..][i] == taxes'[i + 1];
      PropertyTaxesExtended(taxes[1..], taxes'[1..], tenants, relief);
      var less, more := Filter(taxes[1..], IsKnownPropertyTax), Filter(taxes'[1..], IsKnownPropertyTax);
      StableSortSorts(more, StatutoryDateOf);
      assert ([x] + less)[1..] == less && ([x'] + more)[1..] == more;
      if IsKnownPropertyTax(x) {
        ExtendedInsertBoth(x, PropertyTaxes(taxes[1..]), PropertyTaxes(taxes'[1..]), tenants, relief);
      } else if IsKnownPropertyTax(x') {
        ExtendedInsertMore(x', PropertyTaxes(taxes[1..]), PropertyTaxes(taxes'[1..]), tenants, relief);
      }
    }
  }

  lemma {:induction false} OrdinaryTaxesReduced(taxes: seq<TaxClaim>, taxes': seq<TaxClaim>)
    requires CompletesTaxes(taxes, taxes')
    ensures Reduced(TaxAuthority, OrdinaryTaxClaims(taxes), OrdinaryTaxClaims(taxes'))
  {
    if taxes != [] {
      assert CompletesTax(taxes[0], taxes'[0]);
      assert forall i :: 0 <= i < |taxes[1..]| ==> taxes[1..][i] == taxes[i + 1] && taxes'[1..][i] == taxes'[i + 1];
      OrdinaryTaxesReduced(taxes[1..], taxes'[1..]);
      var less, more := OrdinaryTaxClaims(taxes[1..]), OrdinaryTaxClaims(taxes'[1..]);
      var claim := PriorityClaim(taxes'[0].id, TaxAuthority, taxes'[0].statutoryDate, AmountOf(taxes'[0]));
      assert ([claim] + less)[1..] == less && ([claim] + more)[1..] == more;
      assert [] + less == less && [] + more == more;
    }
  }

  lemma SameBeginning(c: Case, c': Case)
    requires Completes(c, c')
    ensures c'.Participants() == c.Participants() && BookOne(c') == BookOne(c)
    ensures c'.ReliefApplies() == c.ReliefApplies() && c'.tenants == c.tenants && c'.rights == c.rights
    ensures forall t :: c'.PriorityOf(t) == c.PriorityOf(t)
    ensures Distribute(c).Success? ==> Distribute(c').Success?
    ensures BookTwo(c) == PayTaxes(BookOne(c), PropertyTaxes(c.taxes), c.Participants(), c.ReliefApplies())
    ensures BookTwo(c') == PayTaxes(BookOne(c), PropertyTaxes(c'.taxes), c.Participants(), c.ReliefApplies())
  {
    hide BookThree, Outcomes, PayTaxes, StageOne, PropertyTaxes;
  }

  lemma SameIds(c: Case, c': Case)
    requires Completes(c, c') && DistinctIds(c)
    ensures DistinctIds(c')
  {
    hide HasTenant;
    forall i | 0 <= i < |c.taxes|
      ensures c'.taxes[i].id == c.taxes[i].id
    {
      assert CompletesTax(c.taxes[i], c'.taxes[i]);
    }
    assert DistinctTaxes(c.taxes) ==> DistinctTaxes(c'.taxes);
    forall x | x in c'.taxes
      ensures !HasTenant(c'.tenants, x.id) && forall r :: r in c'.rights ==> r.id != x.id
    {
      var i :| 0 <= i < |c'.taxes| && c'.taxes[i] == x;
      assert c.taxes[i] in c.taxes && c.taxes[i].id == x.id;
    }
  }

  lemma BookTwoPoorer(c: Case, c': Case)
    requires Completes(c, c') && !Exposed(c)
    ensures Poorer(BookTwo(c'), BookTwo(c))
  {
    hide BookOne, BookTwo, PropertyTaxes, PayTaxes, Extended, ParticipantsOf, AnalysesOf, SortedBy, TaxTotal;
    var tenants, relief := c.Participants(), c.ReliefApplies();
    SameBeginning(c, c');
    BookTwoRemaining(c);
    UnexposedIsHarmless(c);
    PropertyTaxesExtended(c.taxes, c'.taxes, tenants, relief);
    PropertyTaxesSorted(c'.taxes);
    ExtendedPoorer(BookOne(c), BookOne(c), PropertyTaxes(c.taxes), PropertyTaxes(c'.taxes), tenants, relief);
  }

  lemma UnexposedIsHarmless(c: Case)
    requires !Exposed(c)
    ensures UnknownHarmless(c.taxes, c.Participants(), c.ReliefApplies())
  {
    hide ParticipantsOf, AnalysesOf;
  }

  lemma PropertyTaxesSorted(taxes: seq<TaxClaim>)
    ensures SortedBy(PropertyTaxes(taxes), StatutoryDateOf)
  {
    StableSortSorts(Filter(taxes, IsKnownPropertyTax), StatutoryDateOf);
  }

  // ---- the last stage

  lemma {:induction false} SameTenantClaims(c: Case, c': Case, tenants: seq<Tenant>, b: Book, b': Book)
    requires forall t :: c'.PriorityOf(t) == c.PriorityOf(t)
    requires b'.small == b.small && b'.relief == b.relief
    ensures TenantClaims(c', tenants, b') == TenantClaims(c, tenants, b)
  {
    hide AnalysesOf;
    if tenants != [] {
      SameTenantClaims(c, c', tenants[1..], b, b');
    }
  }

  lemma LastStageReduced(c: Case, c': Case)
    requires Completes(c, c') && BookTwo(c').small == BookTwo(c).small && BookTwo(c').relief == BookTwo(c).relief
    ensures Reduced(TaxAuthority, PriorityClaims(c, BookTwo(c)), PriorityClaims(c', BookTwo(c')))
  {
    hide BookTwo, BookOne, StableSort, TenantClaims, RightClaims, OrdinaryTaxClaims, Reduced, ParticipantsOf,
         AnalysesOf, OffsetsNonNegative;
    var tenants := c.Participants();
    var own, rights := TenantClaims(c, tenants, BookTwo(c)), RightClaims(c.rights);
    SameBeginning(c, c');
    SameTenantClaims(c, c', tenants, BookTwo(c), BookTwo(c'));
    OrdinaryTaxesReduced(c.taxes, c'.taxes);
    OwnClaimsAreTenants(c, tenants, BookTwo(c));
    RightClaimsShape(c.rights);
    ReducedRefl(TaxAuthority, own);
    ReducedRefl(TaxAuthority, rights);
    ReducedAppend(TaxAuthority, own, own, rights, rights);
    ReducedAppend(TaxAuthority, own + rights, own + rights, OrdinaryTaxClaims(c.taxes), OrdinaryTaxClaims(c'.taxes));
    ReducedSort(TaxAuthority, UnsortedClaims(c, BookTwo(c)), UnsortedClaims(c', BookTwo(c')));
  }

  lemma {:induction false} TrancheClaimsAreTenants(id: string, tranches: seq<DepositTranche>, possession: Date,
                                                   toOffset: int)
    ensures forall x :: x in TrancheClaims(id, tranches, possession, toOffset) ==> x.kind.PriorityTenant?
  {
    if tranches != [] {
      TrancheClaimsAreTenants(id, tranches[1..], possession, toOffset - Min(toOffset, tranches[0].amount));
    }
  }

  lemma {:induction false} OwnClaimsAreTenants(c: Case, tenants: seq<Tenant>, b: Book)
    ensures forall x :: x in TenantClaims(c, tenants, b) ==> x.kind.PriorityTenant?
  {
    if tenants != [] {
      TrancheClaimsAreTenants(tenants[0].id, TranchesOf(tenants[0]), c.PriorityOf(tenants[0]).possessionRightDate,
                              b.Offset(tenants[0].id));
      OwnClaimsAreTenants(c, tenants[1..], b);
    }
  }

  /** What a tenant gets falls, or stays, when unknown amounts become known. */
  lemma TenantGetsNoMore(c: Case, c': Case, t: Tenant)
    requires Completes(c, c') && !Exposed(c) && DistinctIds(c) && DistinctIds(c') && t in c.tenants
    ensures PaidTo(BookThree(c').entries, t.id) <= PaidTo(BookThree(c).entries, t.id)
  {
    hide BookTwo, BookOne, PaidTo, PaidIn, PriorityClaims, PayClaims, Claimed, DistinctIds, Exposed, ParticipantsOf,
         AnalysesOf, Completes, OwnClaims, NonNegativeClaims, OffsetsNonNegative;
    var b, b' := BookTwo(c), BookTwo(c');
    var claims, claims' := PriorityClaims(c, b), PriorityClaims(c', b');
    SameBeginning(c, c');
    BookTwoPoorer(c, c');
    BookTwoTo(c, t);
    BookTwoTo(c', t);
    ParticipantOffsets(c);
    ParticipantOffsets(c');
    ClaimsOfTenant(c, b, t);
    ClaimsOfTenant(c', b', t);
    PayClaimsTo(b, claims, t.id);
    PayClaimsTo(b', claims', t.id);
    PaidWithinClaimed(b.remaining, claims, t.id);
    if 0 < b'.remaining {
      LastStageReduced(c, c');
      ReducedPays(TaxAuthority, b.remaining, b'.remaining, claims, claims', t.id);
      SameOwnClaims(c, c', t, b, b');
    } else {
      NothingFromNothing(claims', t.id);
    }
  }

  lemma NothingFromNothing(claims: seq<PriorityClaim>, id: string)
    ensures PaidIn(0, claims, id) == 0
  {
  }

  lemma SameOwnClaims(c: Case, c': Case, t: Tenant, b: Book, b': Book)
    requires c'.PriorityOf(t) == c.PriorityOf(t) && b'.small == b.small && b'.relief == b.relief
    ensures OwnClaims(c', t, b') == OwnClaims(c, t, b)
  {
  }

  ghost predicate IsLowerBound(c: Case, c': Case)
    requires Distribute(c).Success?
  {
    && Distribute(c').Success?
    && |Distribute(c').value.outcomes| == |Distribute(c).value.outcomes|
    && forall i :: 0 <= i < |Distribute(c).value.outcomes| ==>
         Distribute(c).value.outcomes[i].assumedAmount <= Distribute(c').value.outcomes[i].assumedAmount
  }

  /** Unless the relief can reach a property tax of unknown amount, what the buyer is said to take over is a lower
      bound: no completion of the unknown amounts lowers it for any tenant. */
  lemma UnknownTaxesBound(c: Case, c': Case)
    requires DistinctIds(c) && Distribute(c).Success? && Completes(c, c') && !Exposed(c)
    ensures IsLowerBound(c, c')
  {
    hide PaidTo, BookTwo, BookThree, BookOne, DistinctIds, Exposed, ErrorOf, ParticipantsOf, AnalysesOf, Completes;
    SameBeginning(c, c');
    SameIds(c, c');
    OutcomesOf(c);
    OutcomesOf(c');
    forall i | 0 <= i < |c.tenants|
      ensures Distribute(c).value.outcomes[i].assumedAmount <= Distribute(c').value.outcomes[i].assumedAmount
    {
      TenantGetsNoMore(c, c', c.tenants[i]);
      NoOverpayment(c, i);
      NoOverpayment(c', i);
    }
  }

  lemma {:induction false} NoneUnknown(taxes: seq<TaxClaim>)
    ensures |Filter(taxes, IsUnknownTax)| == 0 <==> forall x :: x in taxes ==> x.amount.Some?
  {
    if taxes != [] {
      NoneUnknown(taxes[1..]);
      assert taxes == [taxes[0]] + taxes[1..];
    }
  }

  /** The run counts the unknown taxes, so that it counts none exactly when nothing is left to complete. */
  lemma CountsTheUnknown(c: Case)
    requires Distribute(c).Success?
    ensures Distribute(c).value.unknownAmountTaxClaimCount == 0 <==> forall c' :: Completes(c, c') ==> c' == c
  {
    hide ErrorOf, BookThree;
    NoneUnknown(c.taxes);
    if forall x :: x in c.taxes ==> x.amount.Some? {
      forall c' | Completes(c, c')
        ensures c' == c
      {
        forall i | 0 <= i < |c.taxes|
          ensures c'.taxes[i] == c.taxes[i]
        {
          assert CompletesTax(c.taxes[i], c'.taxes[i]);
        }
        assert c'.taxes == c.taxes;
      }
    } else {
      var i :| 0 <= i < |c.taxes| && c.taxes[i].amount.None?;
      var c' := c.(taxes := c.taxes[i := c.taxes[i].(amount := Some(0))]);
      assert Completes(c, c') && c'.taxes[i] != c.taxes[i];
    }
  }

  lemma OutcomesOf(c: Case)
    requires Distribute(c).Success?
    ensures |Distribute(c).value.outcomes| == |c.tenants| && Distribute(c).value.entries == BookThree(c).entries
    ensures forall i :: 0 <= i < |c.tenants| ==>
              Distribute(c).value.outcomes[i].hasPriority == c.PriorityOf(c.tenants[i]).hasPriority
  {
    hide ErrorOf, BookThree;
  }

  // ---- where it fails

  /** A tenant with a won of deposit who moved in before everything else, an older tax that takes all cash, and one
      property tax. */
  function OneTaxCase(decided: Option<Date>, fixedDate: Date, tax: TaxClaim): Case {
    Case(1, 0, [RegisteredRight("c", AuctionCommencement, 19840614, None)],
         [Tenant("t", 19840101, Some(fixedDate), 1, [], true, Some(20240101))],
         [TaxClaim("q", false, 19840101, Some(1)), tax], Seoul, 19840614, 20240101, decided)
  }

  const OLDER: PriorityClaim := PriorityClaim("q", TaxAuthority, 19840101, 1)

  lemma OneTaxStart(decided: Option<Date>, fixedDate: Date, tax: TaxClaim)
    requires tax.id == "x" && tax.isPropertyTax
    ensures var c := OneTaxCase(decided, fixedDate, tax);
            && DistinctIds(c) && Distribute(c).Success? && ErrorOf(c).None? && c.Participants() == c.tenants
            && c.PriorityOf(c.tenants[0]) == TenantPriorityResult(19840102, true, true)
            && BookOne(c).remaining == 1 && BookOne(c).relief == map[] && BookOne(c).Offset("t") == 0
            && RightClaims(c.rights) == [] && OrdinaryTaxClaims(c.taxes) == [OLDER]
            && PropertyTaxes(c.taxes) == if tax.amount.Some? then [tax] else []
  {
    hide BookThree, TenantClaims, PayTaxes, FindApplicableRule, StageOne, ParticipantsOf, AnalysesOf, RightClaims,
         PropertyTaxes, OrdinaryTaxClaims, FirstMismatch, DistinctIds, AddOneDay, ResolveMortgageReferenceDate;
    var c := OneTaxCase(decided, fixedDate, tax);
    var t := c.tenants[0];
    OneTaxTenant(decided, fixedDate, tax);
    OneTaxTaxes(decided, fixedDate, tax);
    OneTaxRights(decided, fixedDate, tax);
    FirstDecree();
    NoMismatch([t]);
    OneSmallClaim(t);
    OneClaimNoBudget(t);
    OneTaxIds(decided, fixedDate, tax);
  }

  lemma OneTaxIds(decided: Option<Date>, fixedDate: Date, tax: TaxClaim)
    requires tax.id == "x"
    ensures DistinctIds(OneTaxCase(decided, fixedDate, tax))
  {
  }

  lemma OneTaxIsRequest(decided: Option<Date>, fixedDate: Date, tax: TaxClaim)
    requires IsDateIfAny(decided) && ValidDate(fixedDate) && ValidDate(tax.statutoryDate)
    ensures IsRequest(OneTaxCase(decided, fixedDate, tax))
  {
    var c := OneTaxCase(decided, fixedDate, tax);
    BaselineOfTwo(c.rights[0], c.rights[0].(kind := Seizure));
    DateParts(1984, 6, 14);
    DateParts(1984, 1, 1);
    DateParts(2024, 1, 1);
  }

  lemma OneTaxTenant(decided: Option<Date>, fixedDate: Date, tax: TaxClaim)
    ensures var c := OneTaxCase(decided, fixedDate, tax);
            c.Participants() == c.tenants && c.PriorityOf(c.tenants[0]) == TenantPriorityResult(19840102, true, true)
  {
    hide AnalysesOf;
    var c := OneTaxCase(decided, fixedDate, tax);
    DateParts(1984, 1, 1);
    OwnPriority(c, c.tenants[0]);
    assert c.tenants[1..] == [] && ParticipantsOf(c.tenants[1..], c.Analysed()) == [];
  }

  lemma OneTaxTaxes(decided: Option<Date>, fixedDate: Date, tax: TaxClaim)
    requires tax.isPropertyTax
    ensures var c := OneTaxCase(decided, fixedDate, tax);
            && OrdinaryTaxClaims(c.taxes) == [OLDER]
            && PropertyTaxes(c.taxes) == if tax.amount.Some? then [tax] else []
  {
    var taxes := OneTaxCase(decided, fixedDate, tax).taxes;
    assert taxes[1..] == [tax] && [tax][1..] == [] && Filter([tax][1..], IsKnownPropertyTax) == [];
    assert StableSort([tax][1..], StatutoryDateOf) == [];
    assert OrdinaryTaxClaims([tax][1..]) == [] && OrdinaryTaxClaims([tax]) == [];
    assert Filter([tax], IsKnownPropertyTax) == if tax.amount.Some? then [tax] else [];
  }

  lemma OneTaxRights(decided: Option<Date>, fixedDate: Date, tax: TaxClaim)
    ensures var c := OneTaxCase(decided, fixedDate, tax);
            RightClaims(c.rights) == [] && ResolveMortgageReferenceDate(c.rights) == Some(19840614)
  {
    var rights := OneTaxCase(decided, fixedDate, tax).rights;
    assert rights[1..] == [] && RightClaims(rights[1..]) == [];
    assert EarliestCollateral(rights[1..]) == None;
  }

  lemma OneSmallClaim(t: Tenant)
    requires t.depositAmount == 1
    ensures SmallClaimsOf([t], RULES[0], Seoul) == [SmallClaim(t, 1)]
  {
    assert [t][1..] == [] && SmallClaimsOf([t][1..], RULES[0], Seoul) == [];
  }

  lemma OneClaimNoBudget(t: Tenant)
    ensures var b := StageOne(1, [SmallClaim(t, 1)]);
            b.remaining == 1 && b.relief == map[] && b.Offset(t.id) == 0
  {
    var claims := [SmallClaim(t, 1)];
    assert claims[1..] == [] && TotalEntitlement(claims[1..]) == 0;
    assert Share(1, 0, 1) == 0;
    assert PaySmall(OpeningBook(1).PayAsSmallDeposit(t.id, 0), [], 0, 1) == OpeningBook(1).PayAsSmallDeposit(t.id, 0);
  }

  /** With the amount unknown the older tax takes the won, and the tenant gets nothing. */
  lemma UnknownPaysNothing(decided: Option<Date>, fixedDate: Date, tax: TaxClaim)
    requires tax.id == "x" && tax.isPropertyTax && tax.amount.None?
    ensures var c := OneTaxCase(decided, fixedDate, tax);
            PaidTo(BookThree(c).entries, "t") == 0
  {
    hide BookOne, TenantClaims, RightClaims, OrdinaryTaxClaims, StableSort, PaidTo, PayClaims, PropertyTaxes,
         ParticipantsOf, AnalysesOf, OwnClaims, AddOneDay, DistinctIds, Distribute;
    var c := OneTaxCase(decided, fixedDate, tax);
    var t := c.tenants[0];
    OneTaxStart(decided, fixedDate, tax);
    assert BookTwo(c) == BookOne(c);
    BookTwoTo(c, t);
    ClaimsOfOne(c, t, BookTwo(c));
    OwnUndivided(c, t, BookTwo(c));
    var own := UndividedClaim(c, t, BookTwo(c));
    assert UnsortedClaims(c, BookTwo(c)) == [own, OLDER];
    SortedBehind(own, OLDER);
    PayClaimsTo(BookTwo(c), [OLDER, own], "t");
    assert [OLDER, own][1..] == [own] && PaidIn(0, [own], "t") == 0;
  }

  /** With the amount known the relief gives it the won. */
  lemma KnownPaysTenant(decided: Option<Date>, fixedDate: Date, tax: TaxClaim)
    requires tax.id == "x" && tax.isPropertyTax && tax.amount == Some(1) && fixedDate < tax.statutoryDate
    requires OneTaxCase(decided, fixedDate, tax).ReliefApplies()
    ensures var c := OneTaxCase(decided, fixedDate, tax);
            1 <= PaidTo(BookThree(c).entries, "t")
  {
    hide BookOne, PaidTo, PayClaims, PriorityClaims, PropertyTaxes, ParticipantsOf, AnalysesOf, DistinctIds, Distribute,
         RightClaims, OrdinaryTaxClaims;
    var c := OneTaxCase(decided, fixedDate, tax);
    var t, b := c.tenants[0], BookOne(c);
    OneTaxStart(decided, fixedDate, tax);
    assert c.tenants[1..] == [] && [tax][1..] == [];
    assert Diverted(b, t, tax.statutoryDate, 1) == 1;
    assert PayRelief(Divert(b, t, 1), [], tax.statutoryDate, 0) == (b.PayAsRelief("t", 1), 0);
    assert PayRelief(b, c.tenants, tax.statutoryDate, 1) == (b.PayAsRelief("t", 1), 0);
    assert PayTax(b, tax, c.tenants, true) == b.PayAsRelief("t", 1);
    assert PayTaxes(b.PayAsRelief("t", 1), [tax][1..], c.tenants, true) == b.PayAsRelief("t", 1);
    assert BookTwo(c) == b.PayAsRelief("t", 1);
    ReceivedGrows(c, t);
    BookThreeTo(c, t);
  }

  lemma OneTaxCompletes(decided: Option<Date>, fixedDate: Date, statutoryDate: Date)
    ensures Completes(OneTaxCase(decided, fixedDate, TaxClaim("x", true, statutoryDate, None)),
                      OneTaxCase(decided, fixedDate, TaxClaim("x", true, statutoryDate, Some(1))))
  {
  }

  /** A request in which the relief reaches an unknown tax, and a completion of it that lowers what is assumed. */
  lemma ExposedIsLowered(decided: Option<Date>, fixedDate: Date, statutoryDate: Date)
    returns (c: Case, c': Case)
    requires decided.None? || PROPERTY_TAX_TENANT_RELIEF_FROM <= decided.value
    requires fixedDate < statutoryDate
    requires IsDateIfAny(decided) && ValidDate(fixedDate) && ValidDate(statutoryDate)
    ensures c.saleDecisionDate == decided && forall t :: t in c.tenants ==> t.fixedDate == Some(fixedDate)
    ensures forall x :: x in c.taxes && x.amount.None? ==> x.isPropertyTax && x.statutoryDate == statutoryDate
    ensures IsRequest(c) && Runs(c) && Completes(c, c') && !IsLowerBound(c, c')
  {
    hide BookThree, PaidTo, DistinctIds, AnalysesOf, ParticipantsOf, ErrorOf, IsRequest, Distribute, AddOneDay,
         ValidDate, BookOne, RightClaims, OrdinaryTaxClaims, PropertyTaxes, Completes;
    var unknown, known := TaxClaim("x", true, statutoryDate, None), TaxClaim("x", true, statutoryDate, Some(1));
    c, c' := OneTaxCase(decided, fixedDate, unknown), OneTaxCase(decided, fixedDate, known);
    OneTaxIsRequest(decided, fixedDate, unknown);
    OneTaxStart(decided, fixedDate, unknown);
    OneTaxStart(decided, fixedDate, known);
    UnknownPaysNothing(decided, fixedDate, unknown);
    KnownPaysTenant(decided, fixedDate, known);
    NoOverpayment(c, 0);
    NoOverpayment(c', 0);
    OutcomesOf(c);
    OutcomesOf(c');
    assert Completes(c, c') by { OneTaxCompletes(decided, fixedDate, statutoryDate); }
    assert Distribute(c').value.outcomes[0].assumedAmount < Distribute(c).value.outcomes[0].assumedAmount;
  }

  // ---- exactly when

  ghost predicate Runs(c: Case) { DistinctIds(c) && Distribute(c).Success? }

  /** Decided on this day; the taxes of unknown amount are of these kinds and dates, and the tenants' fixed dates
      are among these. */
  ghost predicate Within(c: Case, decided: Option<Date>, unknown: (bool, Date) -> bool, fixed: Option<Date> -> bool) {
    && c.saleDecisionDate == decided
    && (forall x :: x in c.taxes && x.amount.None? ==> unknown(x.isPropertyTax, x.statutoryDate))
    && forall t :: t in c.tenants ==> fixed(t.fixedDate)
  }

  /** The relief is in force, and some fixed date comes before some property tax that may be unknown. */
  ghost predicate ReliefReaches(decided: Option<Date>, unknown: (bool, Date) -> bool, fixed: Option<Date> -> bool) {
    && (decided.None? || PROPERTY_TAX_TENANT_RELIEF_FROM <= decided.value)
    && exists taxDate, fixedDate :: unknown(true, taxDate) && fixed(Some(fixedDate)) && fixedDate < taxDate
  }

  /** For any mix of unknown taxes and fixed dates: amounts said to be taken over are lower bounds in all requests
      with that mix exactly when the relief does not reach one of those taxes. */
  lemma LowerBoundExactlyWhen(decided: Option<Date>, unknown: (bool, Date) -> bool, fixed: Option<Date> -> bool)
    requires IsDateIfAny(decided)
    requires forall taxDate :: unknown(true, taxDate) ==> ValidDate(taxDate)
    requires forall fixedDate :: fixed(Some(fixedDate)) ==> ValidDate(fixedDate)
    ensures (forall c, c' :: IsRequest(c) && Within(c, decided, unknown, fixed) && Runs(c) && Completes(c, c') ==>
               IsLowerBound(c, c'))
            <==> !ReliefReaches(decided, unknown, fixed)
  {
    hide DistinctIds, Distribute, Completes, IsLowerBound, IsRequest, ValidDate;
    if ReliefReaches(decided, unknown, fixed) {
      var taxDate, fixedDate :| unknown(true, taxDate) && fixed(Some(fixedDate)) && fixedDate < taxDate;
      var c, c' := ExposedIsLowered(decided, fixedDate, taxDate);
      assert Within(c, decided, unknown, fixed);
    } else {
      forall c, c' | Within(c, decided, unknown, fixed) && Runs(c) && Completes(c, c')
        ensures IsLowerBound(c, c')
      {
        UnreachedIsUnexposed(c, decided, unknown, fixed);
        UnknownTaxesBound(c, c');
      }
    }
  }

  lemma UnreachedIsUnexposed(c: Case, decided: Option<Date>, unknown: (bool, Date) -> bool,
                             fixed: Option<Date> -> bool)
    requires Within(c, decided, unknown, fixed) && !ReliefReaches(decided, unknown, fixed)
    ensures !Exposed(c)
  {
    hide ParticipantsOf, AnalysesOf;
    forall t | t in c.Participants()
      ensures t in c.tenants
    {
      ParticipantsAreTenants(c.tenants, c.Analysed(), t);
    }
  }
}

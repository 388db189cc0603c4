/** The order in which the second and the third stage pay, in closed form: what each tenant and each tax gets is what
    those before it leave. And when a distribution has no answer at all. */
module Waterfall {
  import opened Collections
  import opened RightsTypes
  import opened SmallDeposit
  import opened Distribution
  import opened DistributionStages
  import opened DistributionLaws

  // ---- relief goes down the list of tenants

  /** What a tenant can get out of a tax of this date. */
  function Need(b: Book, t: Tenant, taxDate: Date): int {
    if t.fixedDate.Some? && t.fixedDate.value < taxDate then Max(0, t.depositAmount - b.Offset(t.id)) else 0
  }

  function NeedTotal(b: Book, tenants: seq<Tenant>, taxDate: Date): int {
    if tenants == [] then 0 else Need(b, tenants[0], taxDate) + NeedTotal(b, tenants[1..], taxDate)
  }

  /** The share of `need` in `money` once `before` has been served. */
  function Served(need: int, money: int, before: int): int {
    Min(need, Max(0, money - before))
  }

  lemma {:induction false} SameNeeds(b: Book, b': Book, tenants: seq<Tenant>, taxDate: Date)
    requires forall i :: 0 <= i < |tenants| ==> b'.Offset(tenants[i].id) == b.Offset(tenants[i].id)
    ensures NeedTotal(b', tenants, taxDate) == NeedTotal(b, tenants, taxDate)
  {
    if tenants != [] { SameNeeds(b, b', tenants[1..], taxDate); }
  }

  lemma {:induction false} NeedsNonNegative(b: Book, tenants: seq<Tenant>, taxDate: Date)
    ensures 0 <= NeedTotal(b, tenants, taxDate)
  {
    if tenants != [] { NeedsNonNegative(b, tenants[1..], taxDate); }
  }

  lemma DivertIsServed(b: Book, t: Tenant, taxDate: Date, claimLeft: int, who: string)
    requires 0 < b.remaining && 0 < claimLeft
    ensures var paid := Diverted(b, t, taxDate, claimLeft);
            && paid == Served(Need(b, t, taxDate), Min(claimLeft, b.remaining), 0)
            && 0 <= paid <= claimLeft && paid <= b.remaining
            && Divert(b, t, paid).remaining == b.remaining - paid
            && Divert(b, t, paid).Offset(who) == b.Offset(who) + if who == t.id then paid else 0
  {
  }

  lemma NeedsPush(b: Book, t: Tenant, rest: seq<Tenant>, taxDate: Date)
    ensures NeedTotal(b, [t] + rest, taxDate) == Need(b, t, taxDate) + NeedTotal(b, rest, taxDate)
    ensures 0 <= Need(b, t, taxDate)
  {
    assert ([t] + rest)[1..] == rest;
  }

  lemma SameNeed(b: Book, b': Book, t: Tenant, taxDate: Date)
    requires b'.Offset(t.id) == b.Offset(t.id)
    ensures Need(b', t, taxDate) == Need(b, t, taxDate)
  {
  }

  lemma NothingToServe(b: Book, tenants: seq<Tenant>, taxDate: Date, need: int, money: int)
    requires money <= 0 <= need
    ensures Served(need, money, NeedTotal(b, tenants, taxDate)) == 0
  {
    NeedsNonNegative(b, tenants, taxDate);
  }

  /** What a tax that may claim `claimLeft` gives up goes to the tenants of an earlier fixed date in the order they are
      listed: each gets what is still missing of the deposit, as far as those before leave anything. */
  lemma {:induction false} ReliefIsWaterfall(b: Book, tenants: seq<Tenant>, taxDate: Date, claimLeft: int, i: nat)
    requires DistinctTenants(tenants) && i < |tenants| && 0 <= b.remaining && 0 <= claimLeft
    ensures var b' := PayRelief(b, tenants, taxDate, claimLeft).0;
            b'.Offset(tenants[i].id) - b.Offset(tenants[i].id)
            == Served(Need(b, tenants[i], taxDate), Min(claimLeft, b.remaining),
                      NeedTotal(b, tenants[..i], taxDate))
    decreases |tenants|
  {
    hide Diverted, Divert, Need, NeedTotal, Served;
    var t, rest := tenants[0], tenants[1..];
    var own := tenants[i];
    if claimLeft <= 0 || b.remaining <= 0 {
      NeedsPush(b, own, [], taxDate);
      NothingToServe(b, tenants[..i], taxDate, Need(b, own, taxDate), Min(claimLeft, b.remaining));
    } else {
      var paid := Diverted(b, t, taxDate, claimLeft);
      var b' := Divert(b, t, paid);
      DivertIsServed(b, t, taxDate, claimLeft, own.id);
      if i == 0 {
        assert tenants[..0] == [] && NeedTotal(b, [], taxDate) == 0 by { NoNeeds(b, taxDate); }
        forall j | 0 <= j < |rest|
          ensures rest[j].id != t.id
        {
          assert rest[j] == tenants[j + 1];
        }
        OthersReliefUntouched(b', rest, taxDate, claimLeft - paid, t.id);
      } else {
        var between := rest[..i - 1];
        assert tenants[..i] == [t] + between && rest[i - 1] == own && own.id != t.id;
        ReliefIsWaterfall(b', rest, taxDate, claimLeft - paid, i - 1);
        forall j | 0 <= j < |between|
          ensures b'.Offset(between[j].id) == b.Offset(between[j].id)
        {
          assert between[j] == tenants[j + 1];
          DivertIsServed(b, t, taxDate, claimLeft, between[j].id);
        }
        SameNeeds(b, b', between, taxDate);
        SameNeed(b, b', own, taxDate);
        NeedsNonNegative(b, between, taxDate);
        NeedsPush(b, t, between, taxDate);
        ServedAgain(Need(b, t, taxDate), Min(claimLeft, b.remaining), NeedTotal(b, between, taxDate),
                    Need(b, own, taxDate));
      }
    }
  }

  lemma NoNeeds(b: Book, taxDate: Date)
    ensures NeedTotal(b, [], taxDate) == 0
  {
  }

  lemma ServedAgain(first: int, money: int, before: int, need: int)
    requires 0 <= first && 0 <= money && 0 <= before
    ensures Served(need, money - Served(first, money, 0), before) == Served(need, money, first + before)
  {
  }

  // ---- property taxes are paid by statutory date

  lemma {:induction false} TaxTotalAppend(s: seq<TaxClaim>, t: seq<TaxClaim>)
    ensures TaxTotal(s + t) == TaxTotal(s) + TaxTotal(t)
  {
    if s == [] {
      assert s + t == t;
    } else {
      assert (s + t)[1..] == s[1..] + t;
      TaxTotalAppend(s[1..], t);
    }
  }

  /** Without relief each tax gets its amount as far as the taxes before it leave anything. */
  lemma {:induction false} TaxesAreWaterfall(b: Book, claims: seq<TaxClaim>, tenants: seq<Tenant>, k: nat)
    requires DistinctTaxes(claims) && k < |claims| && 0 <= b.remaining
    ensures PaidTo(PayTaxes(b, claims, tenants, false).entries, claims[k].id) - PaidTo(b.entries, claims[k].id)
            == Served(AmountOf(claims[k]), b.remaining, TaxTotal(claims[..k]))
    decreases |claims|
  {
    hide PaidTo, TotalPaid;
    if b.remaining > 0 {
      var first, rest := claims[0], claims[1..];
      var b' := PayTax(b, first, tenants, false);
      PayTaxTotals(b, first, tenants, false);
      PlainTax(b, first, tenants, claims[k].id);
      if k == 0 {
        assert forall j :: 0 <= j < |rest| ==> rest[j] == claims[j + 1] && rest[j].id != first.id;
        PlainTaxes(b', rest, tenants, first.id);
      } else {
        TaxesAreWaterfall(b', rest, tenants, k - 1);
        assert claims[..k] == [first] + rest[..k - 1] && claims[0].id != claims[k].id;
        TaxTotalAppend([first], rest[..k - 1]);
        assert TaxTotal([first]) == AmountOf(first) by { assert [first][1..] == []; }
      }
    }
  }

  lemma PlainTax(b: Book, claim: TaxClaim, tenants: seq<Tenant>, id: string)
    requires 0 <= b.remaining
    ensures PaidTo(PayTax(b, claim, tenants, false).entries, id)
            == PaidTo(b.entries, id) + if claim.id == id then Min(b.remaining, AmountOf(claim)) else 0
  {
    PayRecords(b, claim.id, TaxAuthority, Min(b.remaining, AmountOf(claim)), id);
  }

  lemma {:induction false} PlainTaxes(b: Book, claims: seq<TaxClaim>, tenants: seq<Tenant>, id: string)
    requires 0 <= b.remaining && forall i :: 0 <= i < |claims| ==> claims[i].id != id
    ensures PaidTo(PayTaxes(b, claims, tenants, false).entries, id) == PaidTo(b.entries, id)
    decreases |claims|
  {
    hide PaidTo, PayTax;
    if claims != [] && 0 < b.remaining {
      PlainTax(b, claims[0], tenants, id);
      PayTaxTotals(b, claims[0], tenants, false);
      PlainTaxes(PayTax(b, claims[0], tenants, false), claims[1..], tenants, id);
    }
  }

  /** In every run without relief: the known property taxes, by statutory date and all of them, each get their amount
      as far as the earlier ones leave anything of what stage 1 left. */
  lemma PropertyTaxesInDateOrder(c: Case, k: nat)
    requires DistinctIds(c) && Distribute(c).Success? && !c.ReliefApplies() && k < |PropertyTaxes(c.taxes)|
    ensures var taxes := PropertyTaxes(c.taxes);
            && SortedBy(taxes, StatutoryDateOf)
            && multiset(taxes) == multiset(Filter(c.taxes, IsKnownPropertyTax))
            && PaidTo(Distribute(c).value.entries, taxes[k].id)
               == Served(AmountOf(taxes[k]), BookOne(c).remaining, TaxTotal(taxes[..k]))
  {
    hide PaidTo, PayTaxes, PayClaims, PriorityClaims, StageOne, ErrorOf, ParticipantsOf, AnalysesOf, DistinctIds;
    var taxes := PropertyTaxes(c.taxes);
    StableSortSorts(Filter(c.taxes, IsKnownPropertyTax), StatutoryDateOf);
    PropertyTaxesAreTaxes(c.taxes, taxes[k]);
    DistinctTaxesIn(c);
    KnownTaxesDistinct(c.taxes);
    SortedTaxesDistinct(Filter(c.taxes, IsKnownPropertyTax));
    BookTwoRemaining(c);
    TaxesAreWaterfall(BookOne(c), taxes, c.Participants(), k);
    PropertyTaxLog(c, taxes[k]);
  }

  lemma DistinctTaxesIn(c: Case)
    requires DistinctIds(c)
    ensures DistinctTaxes(c.taxes)
  {
  }

  // ---- what the last stage is asked for

  predicate HasAmount(r: RegisteredRight) { r.amount.Some? }

  predicate IsKnownOrdinaryTax(x: TaxClaim) { !x.isPropertyTax && x.amount.Some? }

  /** Every right with an amount claims it by the day it was received, in the order of the registry, and no other. */
  lemma {:induction false} RightsClaimTheirAmounts(rights: seq<RegisteredRight>)
    ensures var claiming, claims := Filter(rights, HasAmount), RightClaims(rights);
            && |claims| == |claiming|
            && forall k :: 0 <= k < |claims| ==>
                 var r := claiming[k];
                 r.amount.Some? && claims[k] == PriorityClaim(r.id, RightHolder, r.receivedDate, r.amount.value)
  {
    if rights != [] {
      RightsClaimTheirAmounts(rights[1..]);
    }
  }

  /** So does every tax that is known and no property tax, by its statutory date. */
  lemma {:induction false} TaxesClaimTheirAmounts(taxes: seq<TaxClaim>)
    ensures var claiming, claims := Filter(taxes, IsKnownOrdinaryTax), OrdinaryTaxClaims(taxes);
            && |claims| == |claiming|
            && forall k :: 0 <= k < |claims| ==>
                 var x := claiming[k];
                 x.amount.Some? && claims[k] == PriorityClaim(x.id, TaxAuthority, x.statutoryDate, x.amount.value)
  {
    if taxes != [] {
      TaxesClaimTheirAmounts(taxes[1..]);
    }
  }

  /** Tenants before rights before taxes. */
  function RankOf(kind: ClaimantKind): int {
    match kind
    case SmallDepositTenant => 0
    case PriorityTenant => 1
    case RightHolder => 2
    case TaxAuthority => 3
  }

  ghost predicate RanksRise(claims: seq<PriorityClaim>) {
    forall i, j :: 0 <= i < j < |claims| ==> RankOf(claims[i].kind) <= RankOf(claims[j].kind)
  }

  ghost predicate TiesByRank(claims: seq<PriorityClaim>) {
    forall i, j :: 0 <= i < j < |claims| ==>
      || claims[i].priorityDate < claims[j].priorityDate
      || (claims[i].priorityDate == claims[j].priorityDate && RankOf(claims[i].kind) <= RankOf(claims[j].kind))
  }

  lemma {:induction false} InsertKeepsTies(x: PriorityClaim, s: seq<PriorityClaim>)
    requires TiesByRank(s) && forall i :: 0 <= i < |s| ==> RankOf(x.kind) <= RankOf(s[i].kind)
    ensures TiesByRank(Insert(x, s, PriorityDateOf))
  {
    hide RankOf;
    if s != [] && PriorityDateOf(s[0]) < PriorityDateOf(x) {
      var rest := Insert(x, s[1..], PriorityDateOf);
      InsertKeepsTies(x, s[1..]);
      forall i | 0 <= i < |rest|
        ensures s[0].priorityDate < rest[i].priorityDate
                || (s[0].priorityDate == rest[i].priorityDate && RankOf(s[0].kind) <= RankOf(rest[i].kind))
      {
        InsertMember(x, s[1..], PriorityDateOf, rest[i]);
        if rest[i] != x {
          var j :| 0 <= j < |s[1..]| && s[1..][j] == rest[i];
          assert s[j + 1] == rest[i];
        }
      }
    }
  }

  lemma {:induction false} SortKeepsTies(s: seq<PriorityClaim>)
    requires RanksRise(s)
    ensures TiesByRank(StableSort(s, PriorityDateOf))
  {
    hide RankOf;
    if s != [] {
      var rest := StableSort(s[1..], PriorityDateOf);
      SortKeepsTies(s[1..]);
      forall i | 0 <= i < |rest|
        ensures RankOf(s[0].kind) <= RankOf(rest[i].kind)
      {
        SortedClaimsMember(s[1..], rest[i]);
        var j :| 0 <= j < |s[1..]| && s[1..][j] == rest[i];
        assert s[j + 1] == rest[i];
      }
      InsertKeepsTies(s[0], rest);
    }
  }

  /** The last stage asks by date; on one day tenants come before rights and rights before taxes. */
  lemma TiesOfOneDay(c: Case)
    requires DistinctIds(c)
    ensures TiesByRank(PriorityClaims(c, BookTwo(c)))
  {
    hide BookTwo, TenantClaims, RightClaims, OrdinaryTaxClaims, StableSort, ParticipantsOf, AnalysesOf;
    ParticipantOffsets(c);
    TenantClaimsShape(c, c.Participants(), BookTwo(c));
    RightClaimsShape(c.rights);
    OrdinaryTaxClaimsShape(c.taxes);
    var own, rights, taxes := TenantClaims(c, c.Participants(), BookTwo(c)), RightClaims(c.rights),
        OrdinaryTaxClaims(c.taxes);
    var all := UnsortedClaims(c, BookTwo(c));
    forall i | 0 <= i < |all|
      ensures all[i].kind == if i < |own| then PriorityTenant else if i < |own| + |rights| then RightHolder
                             else TaxAuthority
    {
      if i < |own| {
        assert all[i] == own[i];
      } else if i < |own| + |rights| {
        assert all[i] == rights[i - |own|];
      } else {
        assert all[i] == taxes[i - |own| - |rights|];
      }
    }
    SortKeepsTies(all);
  }

  // ---- when there is no answer

  ghost predicate IsReference(r: RegisteredRight) {
    r.kind.Mortgage? || r.kind.CollateralProvisionalRegistration? || r.kind.AuctionCommencement?
  }

  ghost predicate Mismatched(t: Tenant) {
    t.depositTranches != [] && TrancheTotal(t.depositTranches) != t.depositAmount
  }

  /** Participant `i` is the first whose shares do not add up. */
  ghost predicate FirstMismatchAt(tenants: seq<Tenant>, i: nat) {
    i < |tenants| && Mismatched(tenants[i]) && forall j :: 0 <= j < i ==> !Mismatched(tenants[j])
  }

  function MismatchOf(t: Tenant): DistributionError {
    DepositTrancheMismatch(t.id, TrancheTotal(t.depositTranches), t.depositAmount)
  }

  /** A distribution has no answer exactly when the registry shows neither collateral nor commencement, or a tenant
      takes part under a reference date before the first decree, or the shares of a participant do not add up; and the
      error is the first of these, for the first such tenant. */
  lemma FailsExactlyWhen(c: Case)
    ensures var noReference := forall r :: r in c.rights ==> !IsReference(r);
            var reference := ResolveMortgageReferenceDate(c.rights);
            var noRule := reference.Some? && c.Participants() != [] && reference.value < 19840614;
            && (Distribute(c).Success? <==>
                  !noReference && !noRule && forall t :: t in c.Participants() ==> !Mismatched(t))
            && (Distribute(c) == Failure(NoMortgageReferenceDate) <==> noReference)
            && (Distribute(c) == Failure(NoSmallDepositRule) <==> noRule)
            && (Distribute(c).Failure? && !noReference && !noRule ==>
                  exists i: nat :: FirstMismatchAt(c.Participants(), i)
                                   && Distribute(c) == Failure(MismatchOf(c.Participants()[i])))
  {
    hide BookThree, ParticipantsOf, AnalysesOf, FindApplicableRule, ResolveMortgageReferenceDate, FirstMismatch,
         Mismatched, MismatchOf;
    ReferenceDateIsEarliest(c.rights);
    var reference := ResolveMortgageReferenceDate(c.rights);
    assert reference.None? <==> forall r :: r in c.rights ==> !IsReference(r);
    if reference.Some? { NoRuleBefore(reference.value); }
    MismatchIsFirst(c.Participants());
    OnlyMismatches(c.Participants());
  }

  lemma NoRuleBefore(date: Date)
    ensures FindApplicableRule(date).None? <==> date < 19840614
  {
    LatestRuleIsLatest(RULES, date);
    assert RULES[0] in RULES;
    forall r | r in RULES
      ensures 19840614 <= r.effectiveDate
    {
      var i :| 0 <= i < |RULES| && RULES[i] == r;
    }
  }

  lemma {:induction false} OnlyMismatches(tenants: seq<Tenant>)
    ensures FirstMismatch(tenants).Some? ==> FirstMismatch(tenants).value.DepositTrancheMismatch?
  {
    if tenants != [] { OnlyMismatches(tenants[1..]); }
  }

  lemma {:induction false} MismatchIsFirst(tenants: seq<Tenant>)
    ensures FirstMismatch(tenants).None? <==> forall t :: t in tenants ==> !Mismatched(t)
    ensures FirstMismatch(tenants).Some? ==>
              exists i: nat :: FirstMismatchAt(tenants, i) && FirstMismatch(tenants) == Some(MismatchOf(tenants[i]))
  {
    if tenants != [] {
      var rest := tenants[1..];
      MismatchIsFirst(rest);
      MismatchOfFirst(tenants);
      hide FirstMismatch, Mismatched, MismatchOf;
      assert tenants == [tenants[0]] + rest;
      if Mismatched(tenants[0]) {
        assert FirstMismatchAt(tenants, 0);
      } else if FirstMismatch(rest).Some? {
        var i: nat :| FirstMismatchAt(rest, i) && FirstMismatch(rest) == Some(MismatchOf(rest[i]));
        assert FirstMismatchAt(tenants, i + 1) && tenants[i + 1] == rest[i];
      }
    }
  }

  lemma MismatchOfFirst(tenants: seq<Tenant>)
    requires tenants != []
    ensures FirstMismatch(tenants)
            == if Mismatched(tenants[0]) then Some(MismatchOf(tenants[0])) else FirstMismatch(tenants[1..])
  {
  }
}

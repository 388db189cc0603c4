/** Laws of the single stages: what the log of a stage adds up to, what one claimant gets from it, and in
    what order it pays. */
module DistributionStages {
  import opened Collections
  import opened RightsTypes
  import opened SmallDeposit
  import opened TenantPriority
  import opened Distribution

  /** What the entry log says one claimant got. */
  function PaidTo(entries: seq<Entry>, id: string): int {
    if entries == [] then 0
    else
      var last := entries[|entries| - 1];
      PaidTo(entries[..|entries| - 1], id) + (if last.claimantId == id then last.paid else 0)
  }

  function TotalPaid(entries: seq<Entry>): int {
    if entries == [] then 0
    else TotalPaid(entries[..|entries| - 1]) + entries[|entries| - 1].paid
  }

  /** What one payment adds to the log, for any claimant `who`. */
  lemma PayRecords(b: Book, id: string, kind: ClaimantKind, paid: int, who: string)
    ensures TotalPaid(b.Pay(id, kind, paid).entries) == TotalPaid(b.entries) + paid
    ensures PaidTo(b.Pay(id, kind, paid).entries, who) == PaidTo(b.entries, who) + if who == id then paid else 0
  {
    var entries := b.Pay(id, kind, paid).entries;
    assert entries[..|entries| - 1] == b.entries;
  }

  ghost predicate DistinctTenants(tenants: seq<Tenant>) {
    forall i, j :: 0 <= i < j < |tenants| ==> tenants[i].id != tenants[j].id
  }

  ghost predicate HasTenant(tenants: seq<Tenant>, id: string) {
    exists i :: 0 <= i < |tenants| && tenants[i].id == id
  }

  /** Every id in the case names one claimant. */
  ghost predicate DistinctIds(c: Case) {
    && DistinctTenants(c.tenants)
    && (forall r :: r in c.rights ==> !HasTenant(c.tenants, r.id))
    && (forall x :: x in c.taxes ==> !HasTenant(c.tenants, x.id))
    && (forall r, x :: r in c.rights && x in c.taxes ==> r.id != x.id)
    && DistinctTaxes(c.taxes)
  }

  ghost predicate DistinctTaxes(claims: seq<TaxClaim>) {
    forall i, j :: 0 <= i < j < |claims| ==> claims[i].id != claims[j].id
  }

  lemma {:induction false} AnalysesKeepLast(tenants: seq<Tenant>, baselineDate: Date, deadline: Date, i: nat)
    requires i < |tenants| && forall j :: i < j < |tenants| ==> tenants[j].id != tenants[i].id
    ensures var m := AnalysesOf(tenants, baselineDate, deadline);
            tenants[i].id in m && m[tenants[i].id] == AnalyzeTenantPriority(tenants[i], baselineDate, deadline)
  {
    if i < |tenants| - 1 {
      AnalysesKeepLast(tenants[..|tenants| - 1], baselineDate, deadline, i);
    }
  }

  /** With distinct ids every tenant is looked up under its own analysis. */
  lemma OwnPriority(c: Case, t: Tenant)
    requires DistinctTenants(c.tenants) && t in c.tenants
    ensures t.id in c.Analysed()
    ensures c.PriorityOf(t) == AnalyzeTenantPriority(t, c.baselineDate, c.deadline)
  {
    var i :| 0 <= i < |c.tenants| && c.tenants[i] == t;
    AnalysesKeepLast(c.tenants, c.baselineDate, c.deadline, i);
  }

  lemma {:induction false} ParticipantsAreTenants(
    tenants: seq<Tenant>, analysed: map<string, TenantPriorityResult>, t: Tenant)
    ensures t in ParticipantsOf(tenants, analysed) <==> t in tenants && TakesPart(t, analysed)
  {
    if tenants != [] {
      assert tenants == [tenants[0]] + tenants[1..];
      ParticipantsAreTenants(tenants[1..], analysed, t);
    }
  }

  lemma {:induction false} ParticipantsDistinct(tenants: seq<Tenant>, analysed: map<string, TenantPriorityResult>)
    requires DistinctTenants(tenants)
    ensures DistinctTenants(ParticipantsOf(tenants, analysed))
  {
    if tenants != [] {
      ParticipantsDistinct(tenants[1..], analysed);
      var rest := ParticipantsOf(tenants[1..], analysed);
      forall i | 0 <= i < |rest|
        ensures rest[i].id != tenants[0].id
      {
        ParticipantsAreTenants(tenants[1..], analysed, rest[i]);
        assert rest[i] in tenants[1..];
      }
    }
  }

  // ---- stage 1

  function SharesTotal(claims: seq<SmallClaim>, budget: nat, total: nat): nat
    requires total > 0
  {
    if claims == [] then 0
    else Share(claims[0].entitlement, budget, total) + SharesTotal(claims[1..], budget, total)
  }

  function ShareOf(claims: seq<SmallClaim>, budget: nat, total: nat, id: string): nat
    requires total > 0
  {
    if claims == [] then 0
    else
      (if claims[0].tenant.id == id then Share(claims[0].entitlement, budget, total) else 0)
      + ShareOf(claims[1..], budget, total, id)
  }

  ghost predicate DistinctSmallClaims(claims: seq<SmallClaim>) {
    forall i, j :: 0 <= i < j < |claims| ==> claims[i].tenant.id != claims[j].tenant.id
  }

  lemma ScaledOrder(x: int, y: int, k: int)
    requires k > 0
    ensures x * k <= y * k <==> x <= y
  {
  }

  lemma FloorBounds(x: nat, d: nat)
    requires d > 0
    ensures x / d * d <= x < (x / d + 1) * d
  {
  }

  lemma ProductOrder(e: nat, x: int, y: int)
    requires x <= y
    ensures e * x <= e * y
  {
  }

  /** `paid` is entitlement * budget / total, rounded down, when the budget does not cover the total. */
  ghost predicate IsProRata(paid: int, entitlement: int, budget: int, total: int) {
    total > budget ==> paid * total <= entitlement * budget < (paid + 1) * total
  }

  /** A share is the entitlement scaled by budget / total, short of it by less than one won. */
  lemma ShareIsFloor(entitlement: nat, budget: nat, total: nat)
    requires total > 0
    ensures Share(entitlement, budget, total) <= entitlement
    ensures IsProRata(Share(entitlement, budget, total), entitlement, budget, total)
  {
    if total > budget {
      FloorBounds(entitlement * budget, total);
      ProductOrder(entitlement, budget, total);
      ScaledOrder(entitlement * budget / total, entitlement, total);
    }
  }

  lemma TrivialProRata(budget: nat)
    ensures IsProRata(0, 0, budget, 0)
  {
  }

  lemma FloorsAdd(s: nat, s': nat, n: nat, e: nat, e': nat, budget: nat, total: nat)
    requires s * total <= e * budget < (s + 1) * total
    requires s' * total <= e' * budget <= (s' + n) * total
    ensures (s + s') * total <= (e + e') * budget <= (s + s' + n + 1) * total
  {
    assert (s + s') * total == s * total + s' * total;
    assert (e + e') * budget == e * budget + e' * budget;
    assert (s + s' + n + 1) * total == (s + 1) * total + (s' + n) * total;
  }

  lemma {:induction false} SharesTotalIsFloor(claims: seq<SmallClaim>, budget: nat, total: nat)
    requires total > 0
    ensures total <= budget ==> SharesTotal(claims, budget, total) == TotalEntitlement(claims)
    ensures total > budget ==>
              var s := SharesTotal(claims, budget, total);
              s * total <= TotalEntitlement(claims) * budget <= (s + |claims|) * total
  {
    if claims != [] {
      var e, rest := claims[0].entitlement, claims[1..];
      SharesTotalIsFloor(rest, budget, total);
      if total > budget {
        ShareIsFloor(e, budget, total);
        FloorsAdd(Share(e, budget, total), SharesTotal(rest, budget, total), |rest|,
                  e, TotalEntitlement(rest), budget, total);
      }
    }
  }

  lemma CeilingBounds(s: nat, n: nat, budget: nat, total: nat)
    requires total > 0
    requires s * total <= total * budget <= (s + n) * total
    ensures budget - n <= s <= budget
  {
    assert total * budget == budget * total;
    ScaledOrder(s, budget, total);
    ScaledOrder(budget, s + n, total);
  }

  lemma {:induction false} PaySmallTotals(b: Book, claims: seq<SmallClaim>, budget: nat, total: nat)
    requires total > 0
    ensures var b' := PaySmall(b, claims, budget, total);
            && b'.remaining == b.remaining - SharesTotal(claims, budget, total)
            && TotalPaid(b'.entries) == TotalPaid(b.entries) + SharesTotal(claims, budget, total)
            && b'.relief == b.relief && b'.priority == b.priority
    decreases |claims|
  {
    hide TotalPaid, PaidTo, Share;
    if claims != [] {
      var first, paid := claims[0].tenant.id, Share(claims[0].entitlement, budget, total);
      PayRecords(b, first, SmallDepositTenant, paid, first);
      PaySmallTotals(b.PayAsSmallDeposit(first, paid), claims[1..], budget, total);
    }
  }

  lemma {:induction false} PaySmallTo(b: Book, claims: seq<SmallClaim>, budget: nat, total: nat, id: string)
    requires total > 0
    requires DistinctSmallClaims(claims)
    requires id in b.small ==> forall i :: 0 <= i < |claims| ==> claims[i].tenant.id != id
    ensures var b' := PaySmall(b, claims, budget, total);
            && PaidTo(b'.entries, id) == PaidTo(b.entries, id) + ShareOf(claims, budget, total, id)
            && Got(b'.small, id) == Got(b.small, id) + ShareOf(claims, budget, total, id)
    decreases |claims|
  {
    hide TotalPaid, PaidTo, Share;
    if claims != [] {
      var first, paid := claims[0].tenant.id, Share(claims[0].entitlement, budget, total);
      PayRecords(b, first, SmallDepositTenant, paid, id);
      PaySmallTo(b.PayAsSmallDeposit(first, paid), claims[1..], budget, total, id);
    }
  }

  lemma {:induction false} ShareOfClaim(claims: seq<SmallClaim>, budget: nat, total: nat, k: nat)
    requires total > 0 && k < |claims|
    requires DistinctSmallClaims(claims)
    ensures ShareOf(claims, budget, total, claims[k].tenant.id) == Share(claims[k].entitlement, budget, total)
  {
    if k == 0 {
      ShareOfNone(claims[1..], budget, total, claims[0].tenant.id);
    } else {
      ShareOfClaim(claims[1..], budget, total, k - 1);
    }
  }

  lemma {:induction false} ShareOfNone(claims: seq<SmallClaim>, budget: nat, total: nat, id: string)
    requires total > 0
    requires forall i :: 0 <= i < |claims| ==> claims[i].tenant.id != id
    ensures ShareOf(claims, budget, total, id) == 0
  {
    if claims != [] {
      ShareOfNone(claims[1..], budget, total, id);
    }
  }

  lemma {:induction false} SmallClaimsAreTenants(tenants: seq<Tenant>, rule: Rule, region: RegionTier)
    requires DistinctTenants(tenants)
    ensures var claims := SmallClaimsOf(tenants, rule, region);
            && DistinctSmallClaims(claims)
            && forall k :: 0 <= k < |claims| ==>
                 && claims[k].tenant in tenants
                 && claims[k].entitlement <= claims[k].tenant.depositAmount
  {
    if tenants != [] {
      SmallClaimsAreTenants(tenants[1..], rule, region);
      var rest := SmallClaimsOf(tenants[1..], rule, region);
      forall k | 0 <= k < |rest|
        ensures rest[k].tenant.id != tenants[0].id && rest[k].tenant in tenants
      {
        assert rest[k].tenant in tenants[1..];
      }
    }
  }

  lemma SmallClaimsInCase(c: Case)
    requires DistinctTenants(c.tenants)
    ensures DistinctTenants(c.Participants())
    ensures var claims := SmallClaimsIn(c);
            && DistinctSmallClaims(claims)
            && forall k :: 0 <= k < |claims| ==>
                 && claims[k].tenant in c.Participants()
                 && claims[k].entitlement <= claims[k].tenant.depositAmount
  {
    ParticipantsDistinct(c.tenants, c.Analysed());
    var reference := ResolveMortgageReferenceDate(c.rights);
    if reference.Some? && FindApplicableRule(reference.value).Some? {
      SmallClaimsAreTenants(c.Participants(), FindApplicableRule(reference.value).value, c.region);
    }
  }

  lemma SharesUnderBudget(claims: seq<SmallClaim>, budget: nat, total: nat)
    requires total > 0 && total == TotalEntitlement(claims)
    ensures total <= budget ==> SharesTotal(claims, budget, total) == total
    ensures total > budget ==> budget - |claims| <= SharesTotal(claims, budget, total) <= budget
  {
    SharesTotalIsFloor(claims, budget, total);
    if total > budget {
      CeilingBounds(SharesTotal(claims, budget, total), |claims|, budget, total);
    }
  }

  lemma StageOneTotal(cash: nat, claims: seq<SmallClaim>)
    ensures var b := StageOne(cash, claims);
            && TotalPaid(b.entries) == cash - b.remaining
            && 0 <= TotalPaid(b.entries) <= cash / 2
            && (TotalEntitlement(claims) <= cash / 2 ==> TotalPaid(b.entries) == TotalEntitlement(claims))
            && (TotalEntitlement(claims) > cash / 2 ==> cash / 2 - |claims| <= TotalPaid(b.entries))
  {
    var budget, total := cash / 2, TotalEntitlement(claims);
    if total > 0 {
      PaySmallTotals(OpeningBook(cash), claims, budget, total);
      SharesUnderBudget(claims, budget, total);
    }
  }

  lemma StageOneShare(cash: nat, claims: seq<SmallClaim>, k: nat)
    requires DistinctSmallClaims(claims) && k < |claims|
    ensures var paid, e := PaidTo(StageOne(cash, claims).entries, claims[k].tenant.id), claims[k].entitlement;
            && 0 <= paid <= e
            && IsProRata(paid, e, cash / 2, TotalEntitlement(claims))
  {
    var id := claims[k].tenant.id;
    assert PaidTo(OpeningBook(cash).entries, id) == 0;
    hide IsProRata, PaidTo, ShareOf, Share, SharesTotal, PaySmall;
    var budget, total := cash / 2, TotalEntitlement(claims);
    EntitlementInTotal(claims, k);
    if total == 0 {
      TrivialProRata(cash / 2);
    } else {
      PaySmallTo(OpeningBook(cash), claims, budget, total, id);
      ShareOfClaim(claims, budget, total, k);
      ShareIsFloor(claims[k].entitlement, budget, total);
    }
  }

  /** Stage 1: the total stays under half the proceeds (rounded down), rounding loses at most a won
      per claimant, everybody is paid in full when the ceiling does not bind, and nobody gets more
      than the entitlement or a different proportion of it. */
  lemma StatutoryCeiling(c: Case)
    requires DistinctTenants(c.tenants)
    ensures var claims, cash, b := SmallClaimsIn(c), c.RemainingAfterCosts(), BookOne(c);
            && TotalPaid(b.entries) == cash - b.remaining
            && 0 <= TotalPaid(b.entries) <= cash / 2
            && (TotalEntitlement(claims) <= cash / 2 ==> TotalPaid(b.entries) == TotalEntitlement(claims))
            && (TotalEntitlement(claims) > cash / 2 ==> cash / 2 - |claims| <= TotalPaid(b.entries))
            && forall k :: 0 <= k < |claims| ==>
                 var paid, e := PaidTo(b.entries, claims[k].tenant.id), claims[k].entitlement;
                 && 0 <= paid <= e
                 && IsProRata(paid, e, cash / 2, TotalEntitlement(claims))
  {
    hide IsProRata;
    var claims, cash := SmallClaimsIn(c), c.RemainingAfterCosts();
    SmallClaimsInCase(c);
    StageOneTotal(cash, claims);
    forall k | 0 <= k < |claims| { StageOneShare(cash, claims, k); }
  }

  lemma {:induction false} EntitlementInTotal(claims: seq<SmallClaim>, k: nat)
    requires k < |claims|
    ensures claims[k].entitlement <= TotalEntitlement(claims)
  {
    if k > 0 {
      EntitlementInTotal(claims[1..], k - 1);
    }
  }

  // ---- stage 2

  /** What the entry log gained for `id` is what the set-off maps gained. */
  ghost predicate Accounted(b: Book, b': Book, id: string) {
    PaidTo(b'.entries, id) - PaidTo(b.entries, id) == b'.Offset(id) - b.Offset(id)
  }

  /** Whoever in `tenants` has the id of `t` is `t`. */
  ghost predicate Names(tenants: seq<Tenant>, t: Tenant) {
    forall i :: 0 <= i < |tenants| && tenants[i].id == t.id ==> tenants[i] == t
  }

  /** One step of relief, seen by any claimant `who`. */
  lemma DivertLaws(b: Book, t: Tenant, taxDate: Date, claimLeft: int, who: string)
    requires 0 < b.remaining && 0 < claimLeft
    ensures var paid := Diverted(b, t, taxDate, claimLeft);
            var b' := Divert(b, t, paid);
            && 0 <= paid <= claimLeft
            && b'.remaining == b.remaining - paid && 0 <= b'.remaining
            && TotalPaid(b'.entries) == TotalPaid(b.entries) + paid
            && b'.small == b.small && b'.priority == b.priority
            && Accounted(b, b', who)
            && Got(b'.relief, who) == Got(b.relief, who) + (if who == t.id then paid else 0)
            && (b.Offset(t.id) <= t.depositAmount ==> b'.Offset(t.id) <= t.depositAmount)
  {
    PayRecords(b, t.id, PriorityTenant, Diverted(b, t, taxDate, claimLeft), who);
    hide PaidTo, TotalPaid;
  }

  lemma {:induction false} PayReliefTotals(b: Book, tenants: seq<Tenant>, taxDate: Date, claimLeft: int)
    requires 0 <= b.remaining && 0 <= claimLeft
    ensures var (b', left) := PayRelief(b, tenants, taxDate, claimLeft);
            && b'.small == b.small && b'.priority == b.priority
            && 0 <= b'.remaining
            && b.remaining - b'.remaining == claimLeft - left
            && 0 <= left <= claimLeft
            && TotalPaid(b'.entries) + b'.remaining == TotalPaid(b.entries) + b.remaining
    decreases |tenants|
  {
    hide PaidTo, TotalPaid, Divert, Diverted;
    if tenants == [] || claimLeft <= 0 || b.remaining <= 0 {
    } else {
      var paid := Diverted(b, tenants[0], taxDate, claimLeft);
      DivertLaws(b, tenants[0], taxDate, claimLeft, tenants[0].id);
      PayReliefTotals(Divert(b, tenants[0], paid), tenants[1..], taxDate, claimLeft - paid);
    }
  }

  lemma {:induction false} PayReliefTo(b: Book, tenants: seq<Tenant>, taxDate: Date, claimLeft: int, t: Tenant)
    requires Names(tenants, t)
    ensures var b' := PayRelief(b, tenants, taxDate, claimLeft).0;
            && Accounted(b, b', t.id)
            && b'.small == b.small
            && Got(b.relief, t.id) <= Got(b'.relief, t.id)
            && (b.Offset(t.id) <= t.depositAmount ==> b'.Offset(t.id) <= t.depositAmount)
    decreases |tenants|
  {
    hide PaidTo, TotalPaid, Divert, Diverted;
    if tenants == [] || claimLeft <= 0 || b.remaining <= 0 {
    } else {
      var paid := Diverted(b, tenants[0], taxDate, claimLeft);
      DivertLaws(b, tenants[0], taxDate, claimLeft, t.id);
      PayReliefTo(Divert(b, tenants[0], paid), tenants[1..], taxDate, claimLeft - paid, t);
    }
  }

  lemma {:induction false} OthersReliefUntouched(
    b: Book, tenants: seq<Tenant>, taxDate: Date, claimLeft: int, id: string)
    requires forall i :: 0 <= i < |tenants| ==> tenants[i].id != id
    ensures PayRelief(b, tenants, taxDate, claimLeft).0.Offset(id) == b.Offset(id)
    ensures PaidTo(PayRelief(b, tenants, taxDate, claimLeft).0.entries, id) == PaidTo(b.entries, id)
    decreases |tenants|
  {
    hide PaidTo, TotalPaid, Divert, Diverted;
    if tenants == [] || claimLeft <= 0 || b.remaining <= 0 {
    } else {
      var paid := Diverted(b, tenants[0], taxDate, claimLeft);
      DivertLaws(b, tenants[0], taxDate, claimLeft, id);
      OthersReliefUntouched(Divert(b, tenants[0], paid), tenants[1..], taxDate, claimLeft - paid, id);
    }
  }

  /** A diversion that exhausts neither the tax nor the cash leaves the tenant whole. */
  lemma DivertedIsWhole(b: Book, t: Tenant, taxDate: Date, claimLeft: int)
    requires t.fixedDate.Some? && t.fixedDate.value < taxDate
    requires var paid := Diverted(b, t, taxDate, claimLeft); paid < claimLeft && paid < b.remaining
    ensures t.depositAmount <= Divert(b, t, Diverted(b, t, taxDate, claimLeft)).Offset(t.id)
  {
  }

  /** While the tax still has something to claim, every tenant of an earlier fixed date is made whole. */
  lemma {:induction false} ReliefExhaustsEarlierTenants(
    b: Book, tenants: seq<Tenant>, taxDate: Date, claimLeft: int, t: Tenant)
    requires DistinctTenants(tenants) && t in tenants
    requires t.fixedDate.Some? && t.fixedDate.value < taxDate
    requires 0 <= b.remaining && 0 <= claimLeft
    requires var (b', left) := PayRelief(b, tenants, taxDate, claimLeft); 0 < left && 0 < b'.remaining
    ensures t.depositAmount <= PayRelief(b, tenants, taxDate, claimLeft).0.Offset(t.id)
    decreases |tenants|
  {
    hide PaidTo, TotalPaid, Divert, Diverted;
    var paid := Diverted(b, tenants[0], taxDate, claimLeft);
    var next := Divert(b, tenants[0], paid);
    DivertLaws(b, tenants[0], taxDate, claimLeft, t.id);
    PayReliefTotals(next, tenants[1..], taxDate, claimLeft - paid);
    if tenants[0] == t {
      DivertedIsWhole(b, t, taxDate, claimLeft);
      OthersReliefUntouched(next, tenants[1..], taxDate, claimLeft - paid, t.id);
    } else {
      ReliefExhaustsEarlierTenants(next, tenants[1..], taxDate, claimLeft - paid, t);
    }
  }

  function TaxTotal(claims: seq<TaxClaim>): nat {
    if claims == [] then 0 else AmountOf(claims[0]) + TaxTotal(claims[1..])
  }

  /** One tax takes min(what is left, its amount), whoever ends up with the money. */
  lemma PayTaxTotals(b: Book, claim: TaxClaim, tenants: seq<Tenant>, relief: bool)
    requires 0 <= b.remaining
    ensures var b' := PayTax(b, claim, tenants, relief);
            && b'.remaining == Max(0, b.remaining - AmountOf(claim))
            && TotalPaid(b'.entries) + b'.remaining == TotalPaid(b.entries) + b.remaining
            && b'.small == b.small && b'.priority == b.priority
  {
    var (r, left) :=
      if relief then PayRelief(b, tenants, claim.statutoryDate, AmountOf(claim)) else (b, AmountOf(claim));
    if relief {
      PayReliefTotals(b, tenants, claim.statutoryDate, AmountOf(claim));
    }
    PayRecords(r, claim.id, TaxAuthority, Min(r.remaining, left), claim.id);
  }

  lemma PayTaxTo(b: Book, claim: TaxClaim, tenants: seq<Tenant>, relief: bool, t: Tenant)
    requires Names(tenants, t) && claim.id != t.id
    ensures var b' := PayTax(b, claim, tenants, relief);
            && Accounted(b, b', t.id)
            && b'.small == b.small
            && Got(b.relief, t.id) <= Got(b'.relief, t.id)
            && (b.Offset(t.id) <= t.depositAmount ==> b'.Offset(t.id) <= t.depositAmount)
            && (!relief ==> b'.relief == b.relief)
  {
    var (r, left) :=
      if relief then PayRelief(b, tenants, claim.statutoryDate, AmountOf(claim)) else (b, AmountOf(claim));
    if relief {
      PayReliefTo(b, tenants, claim.statutoryDate, AmountOf(claim), t);
    }
    PayRecords(r, claim.id, TaxAuthority, Min(r.remaining, left), t.id);
  }

  lemma {:induction false} PayTaxesTotals(b: Book, claims: seq<TaxClaim>, tenants: seq<Tenant>, relief: bool)
    requires 0 <= b.remaining
    ensures var b' := PayTaxes(b, claims, tenants, relief);
            && b'.remaining == Max(0, b.remaining - TaxTotal(claims))
            && TotalPaid(b'.entries) + b'.remaining == TotalPaid(b.entries) + b.remaining
            && b'.small == b.small && b'.priority == b.priority
    decreases |claims|
  {
    hide TotalPaid, PaidTo, PayTax;
    if claims == [] || b.remaining <= 0 {
    } else {
      PayTaxTotals(b, claims[0], tenants, relief);
      PayTaxesTotals(PayTax(b, claims[0], tenants, relief), claims[1..], tenants, relief);
    }
  }

  lemma {:induction false} PayTaxesTo(b: Book, claims: seq<TaxClaim>, tenants: seq<Tenant>, relief: bool, t: Tenant)
    requires Names(tenants, t)
    requires forall x :: x in claims ==> x.id != t.id
    ensures var b' := PayTaxes(b, claims, tenants, relief);
            && Accounted(b, b', t.id)
            && b'.small == b.small
            && Got(b.relief, t.id) <= Got(b'.relief, t.id)
            && (b.Offset(t.id) <= t.depositAmount ==> b'.Offset(t.id) <= t.depositAmount)
            && (!relief ==> b'.relief == b.relief)
    decreases |claims|
  {
    if claims == [] || b.remaining <= 0 {
    } else {
      PayTaxTo(b, claims[0], tenants, relief, t);
      PayTaxesTo(PayTax(b, claims[0], tenants, relief), claims[1..], tenants, relief, t);
    }
  }

  // ---- stage 3

  /** What the claims of one id get out of `cash`. */
  function PaidIn(cash: int, claims: seq<PriorityClaim>, id: string): int
    decreases |claims|
  {
    if claims == [] || cash <= 0 then 0
    else
      var paid := Min(cash, claims[0].remainingClaim);
      (if claims[0].claimantId == id then paid else 0) + PaidIn(cash - paid, claims[1..], id)
  }

  function Claimed(claims: seq<PriorityClaim>, id: string): int {
    if claims == [] then 0
    else (if claims[0].claimantId == id then claims[0].remainingClaim else 0) + Claimed(claims[1..], id)
  }

  lemma {:induction false} PayClaimsTotals(b: Book, claims: seq<PriorityClaim>)
    requires 0 <= b.remaining
    ensures var b' := PayClaims(b, claims);
            && 0 <= b'.remaining
            && TotalPaid(b'.entries) + b'.remaining == TotalPaid(b.entries) + b.remaining
            && b'.small == b.small && b'.relief == b.relief
    decreases |claims|
  {
    hide TotalPaid, PaidTo;
    if claims == [] || b.remaining <= 0 {
    } else {
      var paid := Min(b.remaining, claims[0].remainingClaim);
      PayRecords(b, claims[0].claimantId, claims[0].kind, paid, "");
      PayClaimsTotals(b.PayInOrder(claims[0].claimantId, claims[0].kind, paid), claims[1..]);
    }
  }

  lemma {:induction false} PayClaimsTo(b: Book, claims: seq<PriorityClaim>, id: string)
    ensures var b' := PayClaims(b, claims);
            && PaidTo(b'.entries, id) == PaidTo(b.entries, id) + PaidIn(b.remaining, claims, id)
            && Got(b'.priority, id) == Got(b.priority, id) + PaidIn(b.remaining, claims, id)
    decreases |claims|
  {
    hide TotalPaid, PaidTo;
    if claims == [] || b.remaining <= 0 {
    } else {
      var paid := Min(b.remaining, claims[0].remainingClaim);
      PayRecords(b, claims[0].claimantId, claims[0].kind, paid, id);
      PayClaimsTo(b.PayInOrder(claims[0].claimantId, claims[0].kind, paid), claims[1..], id);
    }
  }

  ghost predicate NonNegativeClaims(claims: seq<PriorityClaim>, id: string) {
    forall i :: 0 <= i < |claims| && claims[i].claimantId == id ==> 0 <= claims[i].remainingClaim
  }

  lemma {:induction false} PaidWithinClaimed(cash: int, claims: seq<PriorityClaim>, id: string)
    requires NonNegativeClaims(claims, id)
    ensures 0 <= PaidIn(cash, claims, id) <= Claimed(claims, id)
    decreases |claims|
  {
    if claims != [] {
      PaidWithinClaimed(cash - Min(cash, claims[0].remainingClaim), claims[1..], id);
      PaidWithinClaimed(0, claims[1..], id);
    }
  }

  lemma {:induction false} ClaimedAppend(s: seq<PriorityClaim>, t: seq<PriorityClaim>, id: string)
    ensures Claimed(s + t, id) == Claimed(s, id) + Claimed(t, id)
  {
    if s == [] {
      assert s + t == t;
    } else {
      assert (s + t)[0] == s[0] && (s + t)[1..] == s[1..] + t;
      ClaimedAppend(s[1..], t, id);
    }
  }

  lemma {:induction false} ClaimedInsert(x: PriorityClaim, s: seq<PriorityClaim>, id: string)
    ensures Claimed(Insert(x, s, PriorityDateOf), id) == Claimed([x] + s, id)
  {
    assert ([x] + s)[1..] == s;
    if s == [] || PriorityDateOf(x) <= PriorityDateOf(s[0]) {
    } else {
      ClaimedInsert(x, s[1..], id);
      assert ([x] + s[1..])[1..] == s[1..];
    }
  }

  lemma {:induction false} ClaimedSorted(s: seq<PriorityClaim>, id: string)
    ensures Claimed(StableSort(s, PriorityDateOf), id) == Claimed(s, id)
  {
    if s != [] {
      ClaimedSorted(s[1..], id);
      ClaimedInsert(s[0], StableSort(s[1..], PriorityDateOf), id);
      assert ([s[0]] + StableSort(s[1..], PriorityDateOf))[1..] == StableSort(s[1..], PriorityDateOf);
    }
  }

  lemma SortedClaimsMember(s: seq<PriorityClaim>, claim: PriorityClaim)
    ensures claim in StableSort(s, PriorityDateOf) <==> claim in s
  {
    StableSortSorts(s, PriorityDateOf);
    assert claim in StableSort(s, PriorityDateOf) <==> claim in multiset(StableSort(s, PriorityDateOf));
    assert claim in s <==> claim in multiset(s);
  }

  // the shares of one deposit

  lemma {:induction false} TotalOfInsert(x: DepositTranche, s: seq<DepositTranche>)
    ensures TrancheTotal(Insert(x, s, FixedDateOf)) == x.amount + TrancheTotal(s)
  {
    if s == [] || FixedDateOf(x) <= FixedDateOf(s[0]) {
      assert ([x] + s)[1..] == s;
    } else {
      TotalOfInsert(x, s[1..]);
    }
  }

  lemma {:induction false} TotalOfSort(s: seq<DepositTranche>)
    ensures TrancheTotal(StableSort(s, FixedDateOf)) == TrancheTotal(s)
  {
    if s != [] {
      TotalOfSort(s[1..]);
      TotalOfInsert(s[0], StableSort(s[1..], FixedDateOf));
    }
  }

  lemma {:induction false} TotalOfAppend(s: seq<DepositTranche>, t: seq<DepositTranche>)
    ensures TrancheTotal(s + t) == TrancheTotal(s) + TrancheTotal(t)
  {
    if s == [] {
      assert s + t == t;
    } else {
      assert (s + t)[0] == s[0] && (s + t)[1..] == s[1..] + t;
      TotalOfAppend(s[1..], t);
    }
  }

  lemma {:induction false} TotalOfSplit(s: seq<DepositTranche>)
    ensures TrancheTotal(Filter(s, IsDated)) + TrancheTotal(Filter(s, IsUndated)) == TrancheTotal(s)
  {
    if s != [] {
      TotalOfSplit(s[1..]);
    }
  }

  lemma TranchesCoverDeposit(t: Tenant)
    requires TranchesMatch(t)
    ensures TrancheTotal(TranchesOf(t)) == t.depositAmount
  {
    if t.depositTranches != [] {
      var dated, undated := Filter(t.depositTranches, IsDated), Filter(t.depositTranches, IsUndated);
      TotalOfSplit(t.depositTranches);
      TotalOfSort(dated);
      TotalOfAppend(StableSort(dated, FixedDateOf), undated);
    }
  }

  /** However the deposit is split, its claims and the money already set off stay within it. */
  lemma {:induction false} TrancheClaimsWithin(id: string, tranches: seq<DepositTranche>, possession: Date,
                                               toOffset: int)
    requires 0 <= toOffset
    ensures var claims := TrancheClaims(id, tranches, possession, toOffset);
            && 0 <= Claimed(claims, id) <= Max(0, TrancheTotal(tranches) - toOffset)
            && forall i :: 0 <= i < |claims| ==>
                 claims[i].claimantId == id && claims[i].kind.PriorityTenant? && 0 < claims[i].remainingClaim
  {
    if tranches != [] {
      TrancheClaimsWithin(id, tranches[1..], possession, toOffset - Min(toOffset, tranches[0].amount));
    }
  }

  lemma {:induction false} NotClaimed(claims: seq<PriorityClaim>, id: string)
    requires forall i :: 0 <= i < |claims| ==> claims[i].claimantId != id
    ensures Claimed(claims, id) == 0
  {
    if claims != [] {
      NotClaimed(claims[1..], id);
    }
  }

  function OwnClaims(c: Case, t: Tenant, b: Book): seq<PriorityClaim> {
    TrancheClaims(t.id, TranchesOf(t), c.PriorityOf(t).possessionRightDate, b.Offset(t.id))
  }

  ghost predicate OffsetsNonNegative(tenants: seq<Tenant>, b: Book) {
    forall i :: 0 <= i < |tenants| ==> 0 <= b.Offset(tenants[i].id)
  }

  lemma {:induction false} TenantClaimsShape(c: Case, tenants: seq<Tenant>, b: Book)
    requires OffsetsNonNegative(tenants, b)
    ensures forall x :: x in TenantClaims(c, tenants, b) ==>
              x.kind.PriorityTenant? && 0 < x.remainingClaim && HasTenant(tenants, x.claimantId)
  {
    if tenants != [] {
      TenantClaimsShape(c, tenants[1..], b);
      TrancheClaimsWithin(tenants[0].id, TranchesOf(tenants[0]), c.PriorityOf(tenants[0]).possessionRightDate,
                          b.Offset(tenants[0].id));
      forall x | x in TenantClaims(c, tenants[1..], b)
        ensures HasTenant(tenants, x.claimantId)
      {
        var i :| 0 <= i < |tenants[1..]| && tenants[1..][i].id == x.claimantId;
        assert tenants[i + 1].id == x.claimantId;
      }
    }
  }

  lemma {:induction false} TenantClaimsOf(c: Case, tenants: seq<Tenant>, b: Book, t: Tenant)
    requires DistinctTenants(tenants) && OffsetsNonNegative(tenants, b)
    requires Names(tenants, t)
    ensures Claimed(TenantClaims(c, tenants, b), t.id) == if t in tenants then Claimed(OwnClaims(c, t, b), t.id) else 0
  {
    if tenants != [] {
      var first := tenants[0];
      TenantClaimsOf(c, tenants[1..], b, t);
      ClaimedAppend(OwnClaims(c, first, b), TenantClaims(c, tenants[1..], b), t.id);
      if first.id != t.id {
        TrancheClaimsWithin(first.id, TranchesOf(first), c.PriorityOf(first).possessionRightDate, b.Offset(first.id));
        NotClaimed(OwnClaims(c, first, b), t.id);
      }
      assert t in tenants <==> t == first || t in tenants[1..];
    }
  }

  /** The claim of an unsplit, dated deposit. */
  function UndividedClaim(c: Case, t: Tenant, b: Book): PriorityClaim
    requires t.fixedDate.Some?
  {
    PriorityClaim(t.id, PriorityTenant, Max(t.fixedDate.value, c.PriorityOf(t).possessionRightDate),
                  t.depositAmount - b.Offset(t.id))
  }

  lemma OwnUndivided(c: Case, t: Tenant, b: Book)
    requires t.depositTranches == [] && t.fixedDate.Some? && 0 <= b.Offset(t.id) <= t.depositAmount
    ensures OwnClaims(c, t, b) == if b.Offset(t.id) < t.depositAmount then [UndividedClaim(c, t, b)] else []
  {
    assert TranchesOf(t)[1..] == [];
    assert TrancheClaims(t.id, TranchesOf(t)[1..], c.PriorityOf(t).possessionRightDate, 0) == [];
  }

  lemma ClaimsOfOne(c: Case, t: Tenant, b: Book)
    ensures TenantClaims(c, [t], b) == OwnClaims(c, t, b)
  {
    hide TrancheClaims, TranchesOf;
    assert [t][1..] == [];
    assert TenantClaims(c, [], b) == [];
  }

  lemma SortedPair(x: PriorityClaim, y: PriorityClaim)
    requires x.priorityDate <= y.priorityDate
    ensures StableSort([x, y], PriorityDateOf) == [x, y]
  {
    assert [x, y][1..] == [y] && [y][1..] == [];
    assert StableSort([y], PriorityDateOf) == [y];
  }

  lemma SortedBehind(x: PriorityClaim, y: PriorityClaim)
    requires y.priorityDate < x.priorityDate
    ensures StableSort([x, y], PriorityDateOf) == [y, x]
  {
    assert [x, y][1..] == [y] && [y][1..] == [];
    assert StableSort([y], PriorityDateOf) == [y];
    assert Insert(x, [], PriorityDateOf) == [x];
  }

  lemma {:induction false} RightClaimsShape(rights: seq<RegisteredRight>)
    ensures forall x :: x in RightClaims(rights) ==>
              x.kind.RightHolder? && exists r :: r in rights && r.id == x.claimantId
  {
    if rights != [] {
      RightClaimsShape(rights[1..]);
      assert rights[0] in rights;
      assert forall r :: r in rights[1..] ==> r in rights;
    }
  }

  lemma {:induction false} OrdinaryTaxClaimsShape(taxes: seq<TaxClaim>)
    ensures forall x :: x in OrdinaryTaxClaims(taxes) ==>
              && x.kind.TaxAuthority? && 0 <= x.remainingClaim
              && exists tax :: tax in taxes && !tax.isPropertyTax && tax.id == x.claimantId
  {
    if taxes != [] {
      OrdinaryTaxClaimsShape(taxes[1..]);
      assert taxes[0] in taxes;
      assert forall x :: x in taxes[1..] ==> x in taxes;
    }
  }

  // ---- the order of the last stage

  /** The log of the last stage against its claims: entry for claim, each paid in full except
      possibly the last, which is cut short only when the money is gone. */
  ghost predicate FullPrefix(b: Book, b': Book, claims: seq<PriorityClaim>) {
    var m, n := |b.entries|, |b'.entries|;
    && m <= n <= m + |claims|
    && b.entries <= b'.entries
    && (n < m + |claims| ==> b'.remaining == 0)
    && forall i :: m <= i < n ==>
         var e, claim := b'.entries[i], claims[i - m];
         && e.claimantId == claim.claimantId && e.kind == claim.kind
         && (e.paid == claim.remainingClaim || (i == n - 1 && b'.remaining == 0 && 0 < e.paid < claim.remainingClaim))
  }

  lemma {:induction false} PayClaimsPrefix(b: Book, claims: seq<PriorityClaim>)
    requires 0 <= b.remaining
    ensures FullPrefix(b, PayClaims(b, claims), claims)
    decreases |claims|
  {
    if claims == [] || b.remaining <= 0 {
    } else {
      var claim := claims[0];
      var paid := Min(b.remaining, claim.remainingClaim);
      var next := b.PayInOrder(claim.claimantId, claim.kind, paid);
      PayClaimsPrefix(next, claims[1..]);
      var b', m := PayClaims(b, claims), |b.entries|;
      assert b'.entries[..m + 1] == next.entries;
      assert b'.entries[m] == Entry(claim.claimantId, claim.kind, paid);
      assert forall j :: 0 <= j < |claims[1..]| ==> claims[1..][j] == claims[j + 1];
    }
  }

  lemma StageInDateOrder(c: Case, b: Book)
    requires 0 <= b.remaining
    ensures var claims, b' := PriorityClaims(c, b), PayClaims(b, PriorityClaims(c, b));
            && SortedBy(claims, PriorityDateOf)
            && multiset(claims) == multiset(UnsortedClaims(c, b))
            && FullPrefix(b, b', claims)
            && (0 < b'.remaining ==>
                  && |b'.entries| == |b.entries| + |claims|
                  && forall i :: |b.entries| <= i < |b'.entries| ==>
                       b'.entries[i].paid == claims[i - |b.entries|].remainingClaim)
  {
    StableSortSorts(UnsortedClaims(c, b), PriorityDateOf);
    hide UnsortedClaims, PayClaims;
    PayClaimsPrefix(b, PriorityClaims(c, b));
  }
}

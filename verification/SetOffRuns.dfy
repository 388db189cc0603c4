/** The engine's way of setting earlier money off, in whole runs: of all ways it pays a tenant the least, exactly as
    long as no right of negative amount stands between two of the tenant's shares. */
module SetOffRuns {
  import opened Collections
  import opened RightsTypes
  import opened SmallDeposit
  import opened TenantPriority
  import opened Distribution
  import opened DistributionStages
  import opened DistributionLaws
  import opened BaselineRight
  import opened SetOff
  import opened SetOffNeutral

  /** The tenants' claims with those of one tenant set off in another way. */
  function ClaimsWith(c: Case, tenants: seq<Tenant>, b: Book, t: Tenant, offsets: seq<nat>): seq<PriorityClaim>
    requires |offsets| == |TranchesOf(t)|
  {
    if tenants == [] then []
    else
      (if tenants[0] == t then SpreadClaims(t.id, TranchesOf(t), c.PriorityOf(t).possessionRightDate, offsets)
       else OwnClaims(c, tenants[0], b))
      + ClaimsWith(c, tenants[1..], b, t, offsets)
  }

  function OtherwiseSetOff(c: Case, t: Tenant, offsets: seq<nat>): seq<PriorityClaim>
    requires |offsets| == |TranchesOf(t)|
  {
    StableSort(ClaimsWith(c, c.Participants(), BookTwo(c), t, offsets) + RightClaims(c.rights)
               + OrdinaryTaxClaims(c.taxes), PriorityDateOf)
  }

  /** The last stage pays the tenant no more than if the money had been set off in this other way. */
  ghost predicate EnginePaysLeast(c: Case, t: Tenant, offsets: seq<nat>)
    requires |offsets| == |TranchesOf(t)|
  {
    PaidIn(BookTwo(c).remaining, PriorityClaims(c, BookTwo(c)), t.id)
    <= PaidIn(BookTwo(c).remaining, OtherwiseSetOff(c, t, offsets), t.id)
  }

  ghost predicate IsNegative(r: RegisteredRight) { r.amount.Some? && r.amount.value < 0 }

  /** Some share claims with this date. */
  ghost predicate HasDate(tranches: seq<DepositTranche>, possession: Date, date: Date) {
    exists x :: x in tranches && x.fixedDate.Some? && ClaimDate(x, possession) == date
  }

  /** A right of negative amount is dated on or after one share of the tenant and before another. */
  ghost predicate NegativeBetween(c: Case, t: Tenant) {
    var possession := c.PriorityOf(t).possessionRightDate;
    exists r, first, last :: r in c.rights && IsNegative(r) && HasDate(TranchesOf(t), possession, first)
                             && HasDate(TranchesOf(t), possession, last) && first <= r.receivedDate < last
  }

  // ---- the claims around those of one tenant

  lemma {:induction false} OthersOfTenants(c: Case, tenants: seq<Tenant>, b: Book, id: string)
    requires OffsetsNonNegative(tenants, b) && !HasTenant(tenants, id)
    ensures Others(id, TenantClaims(c, tenants, b))
  {
    TenantClaimsShape(c, tenants, b);
  }

  lemma {:induction false} WithoutTenant(c: Case, tenants: seq<Tenant>, b: Book, t: Tenant, offsets: seq<nat>)
    requires |offsets| == |TranchesOf(t)| && t !in tenants
    ensures ClaimsWith(c, tenants, b, t, offsets) == TenantClaims(c, tenants, b)
  {
    hide TranchesOf;
    if tenants != [] {
      WithoutTenant(c, tenants[1..], b, t, offsets);
    }
  }

  lemma {:induction false} ClaimsAround(c: Case, tenants: seq<Tenant>, b: Book, t: Tenant, offsets: seq<nat>)
    returns (before: seq<PriorityClaim>, after: seq<PriorityClaim>)
    requires |offsets| == |TranchesOf(t)|
    requires t in tenants && DistinctTenants(tenants) && OffsetsNonNegative(tenants, b)
    ensures TenantClaims(c, tenants, b) == before + (OwnClaims(c, t, b) + after)
    ensures ClaimsWith(c, tenants, b, t, offsets)
            == before + (SpreadClaims(t.id, TranchesOf(t), c.PriorityOf(t).possessionRightDate, offsets) + after)
    ensures Others(t.id, before) && Others(t.id, after)
  {
    hide TrancheClaims, TranchesOf, SpreadClaims;
    var first, rest := tenants[0], tenants[1..];
    if first == t {
      assert t !in rest && !HasTenant(rest, t.id);
      OthersOfTenants(c, rest, b, t.id);
      WithoutTenant(c, rest, b, t, offsets);
      before, after := [], TenantClaims(c, rest, b);
    } else {
      before, after := ClaimsAround(c, rest, b, t, offsets);
      assert [first][1..] == [] && !HasTenant([first], t.id) by {
        var i :| 0 <= i < |tenants| && tenants[i] == t;
      }
      OthersOfTenants(c, [first], b, t.id);
      ClaimsOfOne(c, first, b);
      before := OwnClaims(c, first, b) + before;
    }
  }

  lemma {:induction false} RightsBetween(rights: seq<RegisteredRight>, id: string, first: Date, last: Date)
    requires forall r :: r in rights ==>
               r.id != id && (IsNegative(r) ==> r.receivedDate < first || last <= r.receivedDate)
    ensures NoneBetween(id, first, last, RightClaims(rights))
  {
    if rights != [] {
      assert rights[0] in rights && forall r :: r in rights[1..] ==> r in rights;
      RightsBetween(rights[1..], id, first, last);
    }
  }

  lemma {:induction false} OthersOfTaxes(taxes: seq<TaxClaim>, id: string)
    requires forall x :: x in taxes ==> x.id != id
    ensures Others(id, OrdinaryTaxClaims(taxes))
  {
    if taxes != [] {
      assert taxes[0] in taxes && forall x :: x in taxes[1..] ==> x in taxes;
      OthersOfTaxes(taxes[1..], id);
    }
  }

  lemma NoOtherHasTenantId(c: Case, t: Tenant)
    requires DistinctIds(c) && t in c.tenants
    ensures (forall r :: r in c.rights ==> r.id != t.id) && (forall x :: x in c.taxes ==> x.id != t.id)
  {
    var i :| 0 <= i < |c.tenants| && c.tenants[i] == t;
    assert HasTenant(c.tenants, t.id);
  }

  lemma NoneBetweenAppend(id: string, first: Date, last: Date, s: seq<PriorityClaim>, t: seq<PriorityClaim>)
    requires NoneBetween(id, first, last, s) && NoneBetween(id, first, last, t)
    ensures NoneBetween(id, first, last, s + t)
  {
  }

  lemma OthersAreNoneBetween(id: string, first: Date, last: Date, s: seq<PriorityClaim>)
    requires Others(id, s)
    ensures NoneBetween(id, first, last, s)
  {
  }

  lemma HasDatePush(x: DepositTranche, rest: seq<DepositTranche>, possession: Date, date: Date)
    requires HasDate(rest, possession, date) || (x.fixedDate.Some? && ClaimDate(x, possession) == date)
    ensures HasDate([x] + rest, possession, date)
  {
    if HasDate(rest, possession, date) {
      var y :| y in rest && y.fixedDate.Some? && ClaimDate(y, possession) == date;
      assert y in [x] + rest;
    } else {
      assert x in [x] + rest;
    }
  }

  /** The dates of the first and the last share, or one date for both when no share is dated. */
  lemma {:induction false} ShareBounds(tranches: seq<DepositTranche>, possession: Date)
    returns (first: Date, last: Date)
    ensures SharesWithin(tranches, possession, first, last)
    ensures if exists x :: x in tranches && x.fixedDate.Some?
            then HasDate(tranches, possession, first) && HasDate(tranches, possession, last) else first == last
  {
    hide HasDate;
    first, last := 0, 0;
    if tranches != [] {
      var x, rest := tranches[0], tranches[1..];
      var first', last' := ShareBounds(rest, possession);
      assert tranches == [x] + rest;
      if x.fixedDate.None? {
        first, last := first', last';
      } else if exists y :: y in rest && y.fixedDate.Some? {
        first, last := Min(first', ClaimDate(x, possession)), Max(last', ClaimDate(x, possession));
      } else {
        first, last := ClaimDate(x, possession), ClaimDate(x, possession);
      }
      if exists y :: y in tranches && y.fixedDate.Some? {
        HasDatePush(x, rest, possession, first);
        HasDatePush(x, rest, possession, last);
      }
    }
  }

  /** In every run without a negative right between the tenant's shares: had what the tenant got before been set off
      in any other way, the last stage would have paid the tenant no less. */
  lemma SetOffNeverUnderstates(c: Case, t: Tenant, offsets: seq<nat>)
    requires DistinctIds(c) && t in c.Participants() && !NegativeBetween(c, t)
    requires IsSpread(TranchesOf(t), offsets, BookTwo(c).Offset(t.id))
    ensures EnginePaysLeast(c, t, offsets)
  {
    hide BookTwo, BookOne, PaidIn, StableSort, TenantClaims, RightClaims, OrdinaryTaxClaims, SpreadClaims, ClaimsWith,
         ParticipantsOf, AnalysesOf, DistinctIds, Others, TrancheClaims, TaxTotal, NoneBetween, SharesWithin,
         TranchesOf;
    var b := BookTwo(c);
    var possession := c.PriorityOf(t).possessionRightDate;
    ParticipantsAreTenants(c.tenants, c.Analysed(), t);
    ParticipantOffsets(c);
    BookTwoRemaining(c);
    BookTwoTo(c, t);
    NoOtherHasTenantId(c, t);
    var before, others := ClaimsAround(c, c.Participants(), b, t, offsets);
    var first, last := ShareBounds(TranchesOf(t), possession);
    forall r | r in c.rights && IsNegative(r)
      ensures r.receivedDate < first || last <= r.receivedDate
    {
      if first != last { assert HasDate(TranchesOf(t), possession, first) && HasDate(TranchesOf(t), possession, last); }
    }
    RightsBetween(c.rights, t.id, first, last);
    OthersOfTaxes(c.taxes, t.id);
    OthersAreNoneBetween(t.id, first, last, others);
    OthersAreNoneBetween(t.id, first, last, OrdinaryTaxClaims(c.taxes));
    NoneBetweenAppend(t.id, first, last, others, RightClaims(c.rights));
    NoneBetweenAppend(t.id, first, last, others + RightClaims(c.rights), OrdinaryTaxClaims(c.taxes));
    var after := others + RightClaims(c.rights) + OrdinaryTaxClaims(c.taxes);
    EarliestFirstPaysLeastBetween(t, possession, b.Offset(t.id), offsets, first, last, before, after, b.remaining);
    var spread := SpreadClaims(t.id, TranchesOf(t), possession, offsets);
    assert UnsortedClaims(c, b) == before + (OwnClaims(c, t, b) + after);
    assert ClaimsWith(c, c.Participants(), b, t, offsets) + RightClaims(c.rights) + OrdinaryTaxClaims(c.taxes)
        == before + (spread + after);
  }

  // ---- exactly when

  ghost predicate Runs(c: Case, t: Tenant) { DistinctIds(c) && Distribute(c).Success? && t in c.Participants() }

  /** The negative rights and the tenant's shares are dated like this. */
  ghost predicate DatedLike(c: Case, t: Tenant, negative: Date -> bool, shares: Date -> bool) {
    && (forall r :: r in c.rights && IsNegative(r) ==> negative(r.receivedDate))
    && forall date :: HasDate(TranchesOf(t), c.PriorityOf(t).possessionRightDate, date) ==> shares(date)
  }

  /** The first date that can be written; possession, and so every share, comes later. */
  const FIRST_DATE: Date := 101

  /** For negative rights and shares of any dates: the engine pays the tenant the least of all ways, in all requests
      with those dates, exactly when no such right can stand between two such shares. */
  lemma SetOffExactlyWhen(negative: Date -> bool, shares: Date -> bool)
    requires forall date :: negative(date) ==> ValidDate(date)
    requires forall date :: shares(date) ==> ValidDate(date) && FIRST_DATE < date
    ensures (forall c, t, offsets :: IsRequest(c) && Runs(c, t) && DatedLike(c, t, negative, shares)
                                     && IsSpread(TranchesOf(t), offsets, BookTwo(c).Offset(t.id)) ==>
               EnginePaysLeast(c, t, offsets))
            <==> !exists first, date, last :: shares(first) && negative(date) && shares(last) && first <= date < last
  {
    hide EnginePaysLeast, IsRequest, DistinctIds, Distribute, ParticipantsOf, AnalysesOf, BookTwo, TranchesOf, HasDate,
         ValidDate, IsNegative, NegativeBetween;
    if exists first, date, last :: shares(first) && negative(date) && shares(last) && first <= date < last {
      var first, date, last :| shares(first) && negative(date) && shares(last) && first <= date < last;
      var c, t, offsets := NegativeRightBetween(first, date, last);
    } else {
      forall c, t, offsets | Runs(c, t) && DatedLike(c, t, negative, shares)
                             && IsSpread(TranchesOf(t), offsets, BookTwo(c).Offset(t.id))
        ensures EnginePaysLeast(c, t, offsets)
      {
        NotBetween(c, t, negative, shares);
        SetOffNeverUnderstates(c, t, offsets);
      }
    }
  }

  lemma NotBetween(c: Case, t: Tenant, negative: Date -> bool, shares: Date -> bool)
    requires DatedLike(c, t, negative, shares)
    requires !exists first, date, last :: shares(first) && negative(date) && shares(last) && first <= date < last
    ensures !NegativeBetween(c, t)
  {
    hide HasDate, AnalysesOf, IsNegative, TranchesOf;
  }

  /** Twenty won of proceeds and of deposit in two shares, five won of an older tax, and a right of minus ten won. */
  function BetweenCase(first: Date, date: Date, last: Date): Case {
    Case(20, 0,
         [RegisteredRight("c", AuctionCommencement, 19840614, None), RegisteredRight("r", Seizure, date, Some(-10))],
         [BetweenTenant(first, last)], [TaxClaim("q", false, FIRST_DATE, Some(5))], Seoul,
         if date < 19840614 then date else 19840614, 20240101, None)
  }

  function BetweenTenant(first: Date, last: Date): Tenant {
    Tenant("t", FIRST_DATE, None, 20, [DepositTranche(10, Some(first)), DepositTranche(10, Some(last))], true,
           Some(20240101))
  }

  lemma BetweenIsRequest(first: Date, date: Date, last: Date)
    requires ValidDate(first) && ValidDate(date) && ValidDate(last)
    ensures IsRequest(BetweenCase(first, date, last))
  {
    var c := BetweenCase(first, date, last);
    BaselineOfTwo(c.rights[0], c.rights[1]);
    DateParts(1984, 6, 14);
    DateParts(2024, 1, 1);
    DateParts(0, 1, 1);
  }

  lemma BetweenShares(first: Date, last: Date)
    requires first < last
    ensures var t := BetweenTenant(first, last); TranchesOf(t) == t.depositTranches && TranchesMatch(t)
  {
    var t := BetweenTenant(first, last);
    var shares := t.depositTranches;
    assert shares[1..] == [shares[1]] && shares[1..][1..] == [];
    assert TrancheTotal(shares[1..][1..]) == 0 && TrancheTotal(shares[1..]) == 10;
    assert Filter(shares[1..][1..], IsDated) == [] && Filter(shares[1..], IsDated) == [shares[1]];
    assert Filter(shares[1..][1..], IsUndated) == [] && Filter(shares[1..], IsUndated) == [];
    assert StableSort(shares[1..][1..], FixedDateOf) == [] && StableSort(shares[1..], FixedDateOf) == shares[1..];
  }

  lemma BetweenLists(first: Date, date: Date, last: Date)
    ensures var c := BetweenCase(first, date, last);
            && RightClaims(c.rights) == [PriorityClaim("r", RightHolder, date, -10)]
            && OrdinaryTaxClaims(c.taxes) == [PriorityClaim("q", TaxAuthority, FIRST_DATE, 5)]
            && PropertyTaxes(c.taxes) == []
  {
    var c := BetweenCase(first, date, last);
    assert c.taxes[1..] == [] && c.rights[1..] == [c.rights[1]] && c.rights[1..][1..] == [];
    assert OrdinaryTaxClaims(c.taxes[1..]) == [] && Filter(c.taxes[1..], IsKnownPropertyTax) == [];
    assert RightClaims(c.rights[1..][1..]) == [];
  }

  lemma BetweenParticipant(first: Date, date: Date, last: Date)
    ensures var c, t := BetweenCase(first, date, last), BetweenTenant(first, last);
            c.Participants() == [t] && c.PriorityOf(t).possessionRightDate == FIRST_DATE + 1
  {
    hide AnalysesOf, AddOneDay;
    var c, t := BetweenCase(first, date, last), BetweenTenant(first, last);
    SecondDate();
    OwnPriority(c, t);
    assert c.tenants[1..] == [] && ParticipantsOf(c.tenants[1..], c.Analysed()) == [];
  }

  lemma SecondDate()
    ensures AddOneDay(FIRST_DATE) == FIRST_DATE + 1
  {
    DateParts(0, 1, 1);
  }

  lemma BetweenIds(first: Date, date: Date, last: Date)
    ensures DistinctIds(BetweenCase(first, date, last))
  {
  }

  lemma BetweenRuns(first: Date, date: Date, last: Date)
    requires FIRST_DATE < first <= date < last
    ensures var c, t := BetweenCase(first, date, last), BetweenTenant(first, last);
            && Runs(c, t) && c.Participants() == [t] && c.PriorityOf(t).possessionRightDate == FIRST_DATE + 1
            && TranchesOf(t) == t.depositTranches
            && RightClaims(c.rights) == [PriorityClaim("r", RightHolder, date, -10)]
            && OrdinaryTaxClaims(c.taxes) == [PriorityClaim("q", TaxAuthority, FIRST_DATE, 5)]
            && PropertyTaxes(c.taxes) == []
  {
    hide BookThree, FindApplicableRule, AnalysesOf, ParticipantsOf, TranchesOf, TranchesMatch, FirstMismatch,
         DistinctIds, ResolveMortgageReferenceDate, RightClaims, OrdinaryTaxClaims, PropertyTaxes;
    var c, t := BetweenCase(first, date, last), BetweenTenant(first, last);
    FirstDecree();
    BetweenIds(first, date, last);
    BetweenShares(first, last);
    BetweenLists(first, date, last);
    BetweenParticipant(first, date, last);
    NoMismatch([t]);
    BetweenReference(c);
  }

  lemma BetweenBooks(first: Date, date: Date, last: Date)
    requires FIRST_DATE < first <= date < last
    ensures var b := BookTwo(BetweenCase(first, date, last)); b.remaining == 10 && b.Offset("t") == 10
  {
    hide FindApplicableRule, ParticipantsOf, AnalysesOf, PropertyTaxes, RightClaims, OrdinaryTaxClaims, TranchesOf,
         DistinctIds, Distribute;
    var c, t := BetweenCase(first, date, last), BetweenTenant(first, last);
    BetweenRuns(first, date, last);
    FirstDecree();
    BetweenReference(c);
    assert [t][1..] == [] && SmallClaimsOf([t][1..], RULES[0], Seoul) == [];
    var claims := [SmallClaim(t, 20)];
    assert SmallClaimsIn(c) == claims;
    assert claims[1..] == [] && TotalEntitlement(claims[1..]) == 0;
    assert PaySmall(OpeningBook(20).PayAsSmallDeposit("t", 10), [], 10, 20)
        == OpeningBook(20).PayAsSmallDeposit("t", 10);
    assert Share(20, 10, 20) == 10;
    assert StageOne(20, claims) == OpeningBook(20).PayAsSmallDeposit("t", 10);
  }

  lemma BetweenReference(c: Case)
    requires |c.rights| == 2 && c.rights[0].kind.AuctionCommencement? && c.rights[1].kind.Seizure?
    ensures ResolveMortgageReferenceDate(c.rights) == Some(c.rights[0].receivedDate)
  {
    assert c.rights[1..] == [c.rights[1]] && c.rights[1..][1..] == [];
    assert EarliestCollateral(c.rights[1..][1..]) == None && EarliestCollateral(c.rights[1..]) == None;
  }

  /** What is claimed, the engine's way and with the later share set off instead. */
  lemma BetweenClaims(first: Date, date: Date, last: Date)
    requires FIRST_DATE < first <= date < last
    ensures var c, t, r, q := BetweenCase(first, date, last), BetweenTenant(first, last),
                              PriorityClaim("r", RightHolder, date, -10),
                              PriorityClaim("q", TaxAuthority, FIRST_DATE, 5);
            && |TranchesOf(t)| == 2
            && PriorityClaims(c, BookTwo(c)) == [q, r, PriorityClaim("t", PriorityTenant, last, 10)]
            && OtherwiseSetOff(c, t, [0, 10]) == [q, PriorityClaim("t", PriorityTenant, first, 10), r]
  {
    hide BookTwo, ParticipantsOf, AnalysesOf, RightClaims, OrdinaryTaxClaims, TranchesOf, DistinctIds, Distribute,
         StableSort;
    var c, t := BetweenCase(first, date, last), BetweenTenant(first, last);
    var r, q := PriorityClaim("r", RightHolder, date, -10), PriorityClaim("q", TaxAuthority, FIRST_DATE, 5);
    BetweenRuns(first, date, last);
    BetweenBooks(first, date, last);
    var shares, offsets: seq<nat> := t.depositTranches, [0, 10];
    assert shares[1..] == [shares[1]] && shares[1..][1..] == [] && [t][1..] == [];
    assert offsets[1..] == [10] && offsets[1..][1..] == [];
    var possession := FIRST_DATE + 1;
    var own, other := PriorityClaim("t", PriorityTenant, last, 10), PriorityClaim("t", PriorityTenant, first, 10);
    assert TrancheClaims("t", shares[1..][1..], possession, 0) == [];
    assert TrancheClaims("t", shares[1..], possession, 0) == [own];
    assert TrancheClaims("t", shares, possession, 10) == [own];
    assert SpreadClaims("t", shares[1..][1..], possession, offsets[1..][1..]) == [];
    assert SpreadClaims("t", shares[1..], possession, offsets[1..]) == [];
    assert SpreadClaims("t", shares, possession, offsets) == [other];
    ClaimsOfOne(c, t, BookTwo(c));
    assert ClaimsWith(c, [t][1..], BookTwo(c), t, offsets) == [];
    assert UnsortedClaims(c, BookTwo(c)) == [own, r, q];
    assert ClaimsWith(c, c.Participants(), BookTwo(c), t, offsets) + RightClaims(c.rights)
           + OrdinaryTaxClaims(c.taxes) == [other, r, q];
    ThreeSorted(own, r, q);
    ThreeSorted(other, r, q);
  }

  /** Of three claims the last comes first; the other two keep their order only when dated in it. */
  lemma ThreeSorted(x: PriorityClaim, y: PriorityClaim, z: PriorityClaim)
    requires z.priorityDate < x.priorityDate && z.priorityDate < y.priorityDate
    ensures StableSort([x, y, z], PriorityDateOf) == if x.priorityDate <= y.priorityDate then [z, x, y] else [z, y, x]
  {
    assert [x, y, z][1..] == [y, z];
    SortedBehind(y, z);
    assert [z, y][1..] == [y] && [y][1..] == [];
    assert Insert(x, [y][1..], PriorityDateOf) == [x];
    assert Insert(x, [y], PriorityDateOf) == if x.priorityDate <= y.priorityDate then [x, y] else [y, x];
  }

  /** A request with a negative right between two shares of a tenant: the money it hands back finds the later share
      still open, so the engine pays the tenant ten won where the other way would have paid five. */
  lemma NegativeRightBetween(first: Date, date: Date, last: Date) returns (c: Case, t: Tenant, offsets: seq<nat>)
    requires ValidDate(first) && ValidDate(date) && ValidDate(last) && FIRST_DATE < first <= date < last
    ensures IsRequest(c) && Runs(c, t) && IsSpread(TranchesOf(t), offsets, BookTwo(c).Offset(t.id))
    ensures forall r :: r in c.rights && IsNegative(r) ==> r.receivedDate == date
    ensures forall d :: HasDate(TranchesOf(t), c.PriorityOf(t).possessionRightDate, d) ==> d == first || d == last
    ensures !EnginePaysLeast(c, t, offsets)
  {
    hide IsRequest, BookTwo, StableSort, TranchesOf, DistinctIds, Distribute, ParticipantsOf, AnalysesOf, ValidDate,
         PriorityClaims, OtherwiseSetOff, RightClaims, OrdinaryTaxClaims, PropertyTaxes;
    c, t, offsets := BetweenCase(first, date, last), BetweenTenant(first, last), [0, 10];
    BetweenIsRequest(first, date, last);
    BetweenRuns(first, date, last);
    BetweenBooks(first, date, last);
    BetweenClaims(first, date, last);
    assert offsets[1..] == [10] && offsets[1..][1..] == [];
    assert SetOff.TotalOf(offsets[1..][1..]) == 0 && SetOff.TotalOf(offsets[1..]) == 10;
    BetweenPayments(first, date, last);
  }

  lemma BetweenPayments(first: Date, date: Date, last: Date)
    ensures var r, q := PriorityClaim("r", RightHolder, date, -10), PriorityClaim("q", TaxAuthority, FIRST_DATE, 5);
            && PaidIn(10, [q, r, PriorityClaim("t", PriorityTenant, last, 10)], "t") == 10
            && PaidIn(10, [q, PriorityClaim("t", PriorityTenant, first, 10), r], "t") == 5
  {
    var r, q := PriorityClaim("r", RightHolder, date, -10), PriorityClaim("q", TaxAuthority, FIRST_DATE, 5);
    var x, y := PriorityClaim("t", PriorityTenant, last, 10), PriorityClaim("t", PriorityTenant, first, 10);
    assert [q, r, x][1..] == [r, x] && [r, x][1..] == [x] && [x][1..] == [];
    assert [q, y, r][1..] == [y, r] && [y, r][1..] == [r];
    assert PaidIn(5, [x][1..], "t") == 0 && PaidIn(15, [x], "t") == 10 && PaidIn(5, [r, x], "t") == 10;
    assert PaidIn(0, [r], "t") == 0 && PaidIn(5, [y, r], "t") == 5;
  }
}

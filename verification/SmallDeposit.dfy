/** Small-deposit tenants: which decree applies, and how much of a deposit it puts first. */
module SmallDeposit {
  import opened Collections
  import opened RightsTypes

  datatype ByRegion = ByRegion(seoul: nat, overconcentration: nat, metro: nat, other: nat)
  {
    function Of(region: RegionTier): nat {
      match region
      case Seoul => seoul
      case Overconcentration => overconcentration
      case Metro => metro
      case Other => other
    }
  }

  datatype Rule = Rule(effectiveDate: Date, depositCap: ByRegion, repaymentCap: ByRegion)

  const RULES: seq<Rule> := [
    Rule(19840614, ByRegion(3_000_000, 3_000_000, 3_000_000, 2_000_000),
         ByRegion(3_000_000, 3_000_000, 3_000_000, 2_000_000)),
    Rule(19871201, ByRegion(5_000_000, 5_000_000, 5_000_000, 4_000_000),
         ByRegion(5_000_000, 5_000_000, 5_000_000, 4_000_000)),
    Rule(19900219, ByRegion(20_000_000, 20_000_000, 20_000_000, 15_000_000),
         ByRegion(7_000_000, 7_000_000, 7_000_000, 5_000_000)),
    Rule(19951019, ByRegion(30_000_000, 30_000_000, 30_000_000, 20_000_000),
         ByRegion(12_000_000, 12_000_000, 12_000_000, 8_000_000)),
    Rule(20010915, ByRegion(40_000_000, 40_000_000, 35_000_000, 30_000_000),
         ByRegion(16_000_000, 16_000_000, 14_000_000, 12_000_000)),
    Rule(20080821, ByRegion(60_000_000, 60_000_000, 50_000_000, 40_000_000),
         ByRegion(20_000_000, 20_000_000, 17_000_000, 14_000_000)),
    Rule(20100726, ByRegion(75_000_000, 65_000_000, 55_000_000, 40_000_000),
         ByRegion(25_000_000, 22_000_000, 19_000_000, 14_000_000)),
    Rule(20140101, ByRegion(95_000_000, 80_000_000, 60_000_000, 45_000_000),
         ByRegion(32_000_000, 27_000_000, 20_000_000, 15_000_000)),
    Rule(20160331, ByRegion(100_000_000, 80_000_000, 60_000_000, 50_000_000),
         ByRegion(34_000_000, 27_000_000, 20_000_000, 17_000_000)),
    Rule(20180918, ByRegion(110_000_000, 100_000_000, 60_000_000, 50_000_000),
         ByRegion(37_000_000, 34_000_000, 20_000_000, 17_000_000)),
    Rule(20210511, ByRegion(150_000_000, 130_000_000, 70_000_000, 60_000_000),
         ByRegion(50_000_000, 43_000_000, 23_000_000, 20_000_000)),
    Rule(20230221, ByRegion(165_000_000, 145_000_000, 85_000_000, 75_000_000),
         ByRegion(55_000_000, 48_000_000, 28_000_000, 25_000_000))
  ]

  /** The latest of the rules already in force on `date`; on a tie the earlier entry wins. */
  function LatestRule(rules: seq<Rule>, date: Date): Option<Rule> {
    if rules == [] then None
    else
      var init, last := rules[..|rules| - 1], rules[|rules| - 1];
      var latest := LatestRule(init, date);
      if last.effectiveDate <= date && (latest.None? || last.effectiveDate > latest.value.effectiveDate)
      then Some(last)
      else latest
  }

  function FindApplicableRule(date: Date): Option<Rule> {
    LatestRule(RULES, date)
  }

  /** What the lookup promises: a rule in force, and none in force that is later. */
  lemma {:induction false} LatestRuleIsLatest(rules: seq<Rule>, date: Date)
    ensures LatestRule(rules, date).None? <==> forall r :: r in rules ==> date < r.effectiveDate
    ensures LatestRule(rules, date).Some? ==>
              var found := LatestRule(rules, date).value;
              && found in rules && found.effectiveDate <= date
              && forall r :: r in rules && r.effectiveDate <= date ==> r.effectiveDate <= found.effectiveDate
  {
    if rules != [] {
      var init, last := rules[..|rules| - 1], rules[|rules| - 1];
      LatestRuleIsLatest(init, date);
      assert rules == init + [last];
      assert forall r :: r in rules <==> r in init || r == last;
    }
  }

  lemma FirstDecree()
    ensures FindApplicableRule(19840614) == Some(RULES[0])
  {
    LatestRuleIsLatest(RULES, 19840614);
    var found := FindApplicableRule(19840614);
    assert RULES[0] in RULES && found.Some?;
    assert found.value in RULES && found.value.effectiveDate <= 19840614;
    var i :| 0 <= i < |RULES| && RULES[i] == found.value;
  }

  predicate IsCollateral(right: RegisteredRight) {
    right.kind.Mortgage? || right.kind.CollateralProvisionalRegistration?
  }

  function EarliestCollateral(rights: seq<RegisteredRight>): Option<Date> {
    if rights == [] then None
    else
      var rest := EarliestCollateral(rights[1..]);
      if !IsCollateral(rights[0]) then rest
      else if rest.None? || rights[0].receivedDate < rest.value then Some(rights[0].receivedDate)
      else rest
  }

  function FirstCommencement(rights: seq<RegisteredRight>): Option<Date> {
    if rights == [] then None
    else if rights[0].kind.AuctionCommencement? then Some(rights[0].receivedDate)
    else FirstCommencement(rights[1..])
  }

  /** None where the source throws NoMortgageReferenceDateError. */
  function ResolveMortgageReferenceDate(rights: seq<RegisteredRight>): Option<Date> {
    var earliest := EarliestCollateral(rights);
    if earliest.Some? then earliest else FirstCommencement(rights)
  }

  lemma {:induction false} EarliestIsLeast(rights: seq<RegisteredRight>)
    ensures EarliestCollateral(rights).None? <==> forall r :: r in rights ==> !IsCollateral(r)
    ensures EarliestCollateral(rights).Some? ==>
              && (exists r :: r in rights && IsCollateral(r) && r.receivedDate == EarliestCollateral(rights).value)
              && forall r :: r in rights && IsCollateral(r) ==> EarliestCollateral(rights).value <= r.receivedDate
  {
    if rights != [] {
      EarliestIsLeast(rights[1..]);
      assert rights == [rights[0]] + rights[1..];
    }
  }

  lemma {:induction false} CommencementIsFirst(rights: seq<RegisteredRight>)
    ensures FirstCommencement(rights).None? <==> forall r :: r in rights ==> !r.kind.AuctionCommencement?
    ensures FirstCommencement(rights).Some? ==>
              exists i :: 0 <= i < |rights| && rights[i].kind.AuctionCommencement?
                          && rights[i].receivedDate == FirstCommencement(rights).value
                          && forall j :: 0 <= j < i ==> !rights[j].kind.AuctionCommencement?
  {
    if rights != [] {
      var rest := rights[1..];
      CommencementIsFirst(rest);
      assert rights == [rights[0]] + rest;
      if rights[0].kind.AuctionCommencement? {
        assert rights[0].receivedDate == FirstCommencement(rights).value;
      } else if FirstCommencement(rest).Some? {
        var i :| 0 <= i < |rest| && rest[i].kind.AuctionCommencement?
            && rest[i].receivedDate == FirstCommencement(rest).value
                 && forall j :: 0 <= j < i ==> !rest[j].kind.AuctionCommencement?;
        assert forall j :: 0 <= j < i + 1 ==> j == 0 || rights[j] == rest[j - 1];
        assert rights[i + 1] == rest[i];
      }
    }
  }

  /** The reference date is that of the earliest collateral, or else of the first commencement entry, and is
      missing exactly when there is neither. */
  lemma ReferenceDateIsEarliest(rights: seq<RegisteredRight>)
    ensures ResolveMortgageReferenceDate(rights).None? <==>
            forall r :: r in rights ==> !IsCollateral(r) && !r.kind.AuctionCommencement?
    ensures forall r: RegisteredRight :: IsCollateral(r) <==>
              r.kind == Mortgage || r.kind == CollateralProvisionalRegistration
    ensures forall r :: r in rights && IsCollateral(r) ==>
              ResolveMortgageReferenceDate(rights).Some? && ResolveMortgageReferenceDate(rights).value <= r.receivedDate
    ensures ResolveMortgageReferenceDate(rights).Some? ==>
              exists i :: 0 <= i < |rights| && rights[i].receivedDate == ResolveMortgageReferenceDate(rights).value
                          && (IsCollateral(rights[i])
                              || (rights[i].kind.AuctionCommencement?
                                  && (forall r :: r in rights ==> !IsCollateral(r))
                                  && forall j :: 0 <= j < i ==> !rights[j].kind.AuctionCommencement?))
  {
    EarliestIsLeast(rights);
    CommencementIsFirst(rights);
    if EarliestCollateral(rights).Some? {
      var r :| r in rights && IsCollateral(r) && r.receivedDate == EarliestCollateral(rights).value;
      var i :| 0 <= i < |rights| && rights[i] == r;
    }
  }

  predicate IsEligible(tenant: Tenant, rule: Rule, region: RegionTier) {
    tenant.depositAmount <= rule.depositCap.Of(region)
  }

  function PriorityRepayment(tenant: Tenant, rule: Rule, region: RegionTier): nat {
    if IsEligible(tenant, rule, region)
    then (if tenant.depositAmount < rule.repaymentCap.Of(region)
          then tenant.depositAmount else rule.repaymentCap.Of(region))
    else 0
  }
}

/** The terms of the burden in figures: rates, fixed ranges and tables as the law and the service have them. */
module BurdenTerms {
  import opened Collections
  import opened NoticeAssumption
  import opened Burden

  /** `amount` is `exact` rounded to whole won, halves up. */
  ghost predicate IsRounded(amount: int, exact: real) {
    amount as real - 0.5 <= exact < amount as real + 0.5
  }

  /** The basic housing rate: one percent up to 600 million, three from 900 million, linear between. */
  ghost predicate IsBasicRate(rate: real, price: int) {
    && (price <= 600_000_000 ==> rate == 0.01)
    && (900_000_000 <= price ==> rate == 0.03)
    && (600_000_000 < price < 900_000_000 ==> rate == 0.01 + (price - 600_000_000) as real / 15_000_000_000.0)
  }

  lemma RoundedIs(x: real)
    ensures IsRounded(Round(x), x)
  {
  }

  lemma BasicRate(price: int)
    ensures IsBasicRate(HousingBasicRate(price as real), price)
  {
    var x := price as real;
    if 600_000_000 < price < 900_000_000 {
      assert (price - 600_000_000) as real == x - 600_000_000.0;
    }
  }

  /** Acquisition tax: 4.6 percent for other buildings and land; for housing at least the basic rate and a tenth of it,
      at most 13.4 percent; and for an unknown kind the lesser of the one and the greater of the other. */
  lemma TaxInFigures(price: int) returns (rate: real)
    ensures var housing, other := AcquisitionTax(price, Some(Housing)), AcquisitionTax(price, Some(NonHousing));
            var unknown := AcquisitionTax(price, None);
            && other.min == other.max && IsRounded(other.min, price as real * 0.046)
            && IsRounded(housing.max, price as real * 0.134)
            && IsBasicRate(rate, price) && IsRounded(housing.min, price as real * rate * 1.1)
            && unknown.min == Min(housing.min, other.min) && unknown.max == Max(housing.max, other.max)
  {
    var x := price as real;
    hide Round, HousingBasicRate, IsBasicRate;
    RoundedIs(x * 0.046);
    RoundedIs(x * 0.134);
    BasicRate(price);
    rate := HousingBasicRate(x);
    GradedIsRounded(x, rate);
  }

  lemma GradedIsRounded(x: real, rate: real)
    requires rate == HousingBasicRate(x)
    ensures IsRounded(GradedTax(x), x * rate * 1.1)
  {
  }

  /** Transfer costs half a percent to one and a half; eviction by who is there and whether anybody loses; and the total
      is the bid, what is taken over, and all of these. */
  lemma BurdenInFigures(price: int, assumed: int, kind: Option<PropertyKind>, outlook: EvictionOutlook)
    ensures var b := CalculateTotalBurden(price, assumed, kind, outlook);
            && b.tax == AcquisitionTax(price, kind)
            && IsRounded(b.transfer.min, price as real * 0.005) && IsRounded(b.transfer.max, price as real * 0.015)
            && (outlook.NoReportedTenant? ==> b.eviction == AmountRange(0, 1_500_000))
            && (outlook.TenantFullyCovered? ==> b.eviction == AmountRange(500_000, 3_000_000))
            && (outlook.TenantWithLoss? ==> b.eviction == AmountRange(2_000_000, 7_000_000))
            && b.totalBurden == price + assumed
            && b.totalWithExtras.min == price + assumed + b.tax.min + b.transfer.min + b.eviction.min
            && b.totalWithExtras.max == price + assumed + b.tax.max + b.transfer.max + b.eviction.max
  {
    hide Round, AcquisitionTax;
    RoundedIs(price as real * 0.005);
    RoundedIs(price as real * 0.015);
  }

  /** Which uses are taxed as housing and which as other buildings or land; of all others the kind is unknown. */
  lemma UsesByKind(usage: Option<string>)
    ensures PropertyKindOfUsage(usage) == Some(Housing) <==>
            usage.Some? && usage.value in ["아파트", "다세대", "연립주택", "단독주택", "다가구주택",
                                           "단독주택다가구", "주택"]
    ensures PropertyKindOfUsage(usage) == Some(NonHousing) <==>
            usage.Some? && usage.value in ["오피스텔", "상가", "근린시설", "근린상가", "점포", "사무실",
                                           "공장", "창고", "숙박시설", "토지", "대지", "임야", "전", "답"]
  {
    if usage.Some? && usage.value in NON_HOUSING_USAGES { NoUseIsBoth(usage.value); }
  }

  lemma NoUseIsBoth(usage: string)
    requires usage in NON_HOUSING_USAGES
    ensures usage !in HOUSING_USAGES
  {
    assert usage[0] in ['오', '상', '근', '점', '사', '공', '창', '숙', '토', '대', '임', '전', '답'];
  }

  /** Nobody is reported, or somebody may lose money, or everybody is known to be cleared. */
  lemma OutlookExactlyWhen(verdicts: seq<Verdict>)
    ensures OutlookOf(verdicts).NoReportedTenant? <==> verdicts == []
    ensures OutlookOf(verdicts).TenantWithLoss? <==>
            exists v :: v in verdicts
                        && (v.assumption != NotAssumed || (v.assumedAmount.Some? && 0 < v.assumedAmount.value))
  {
    if v :| v in verdicts && (v.assumption != NotAssumed || (v.assumedAmount.Some? && 0 < v.assumedAmount.value)) {
      assert MayLose(v);
    }
  }

  // ---- scenarios

  /** The inputs have a price for this kind of scenario, and it is this. */
  ghost predicate HasPrice(inputs: Inputs, kind: ScenarioKind, bid: int) {
    match kind
    case MinimumPrice => !inputs.bulkSale && inputs.minimumSalePrice == Some(bid) && 0 < bid
    case ComparableP25 => IsRatePrice(inputs, inputs.rateP25, bid)
    case ComparableMedian => IsRatePrice(inputs, inputs.rateMedian, bid)
    case ComparableP75 => IsRatePrice(inputs, inputs.rateP75, bid)
    case Custom => inputs.customBidPrice == Some(bid) && 0 < bid
  }

  /** So many percent of the appraisal, where comparable sales of single items are known. */
  ghost predicate IsRatePrice(inputs: Inputs, rate: Option<real>, bid: int) {
    && !inputs.bulkSale && inputs.appraisal.Some? && 0 < inputs.appraisal.value && 0 < inputs.sampleCount && rate.Some?
    && IsRounded(bid, inputs.appraisal.value as real * (rate.value / 100.0))
  }

  /** A percentage of the appraisal with one decimal. */
  ghost predicate IsShare(percent: real, amount: int, appraisal: int) {
    && 0 < appraisal && percent * 10.0 == (percent * 10.0).Floor as real
    && IsRounded((percent * 10.0).Floor, amount as real / appraisal as real * 1000.0)
  }

  lemma PriceIsBid(inputs: Inputs, kind: ScenarioKind, bid: int)
    ensures HasPrice(inputs, kind, bid) <==> BidFor(inputs, kind) == Some(bid)
  {
    hide IsRatePrice, RateBid;
    RatePrice(inputs, inputs.rateP25, bid);
    RatePrice(inputs, inputs.rateMedian, bid);
    RatePrice(inputs, inputs.rateP75, bid);
  }

  lemma RatePrice(inputs: Inputs, rate: Option<real>, bid: int)
    ensures IsRatePrice(inputs, rate, bid) <==> RateBid(inputs, rate) == Some(bid)
  {
    hide Round;
    if HasComparables(inputs) && rate.Some? {
      var exact := inputs.appraisal.value as real * (rate.value / 100.0);
      OneRounding(exact, bid);
    }
  }

  lemma OneRounding(x: real, amount: int)
    ensures IsRounded(amount, x) <==> amount == Round(x)
  {
  }

  /** There is one scenario for every kind that has a price and none for any other; it has that price, the burden of it
      with what the notice has the buyer take over, and the total as a share of the appraisal if there is one. */
  lemma ScenariosInFigures(inputs: Inputs, kind: ScenarioKind)
    ensures (exists bid :: HasPrice(inputs, kind, bid))
            <==> exists s :: s in ScenariosOf(inputs, ALL_KINDS) && s.kind == kind
    ensures forall s :: s in ScenariosOf(inputs, ALL_KINDS) && s.kind == kind ==>
              && HasPrice(inputs, kind, s.bidPrice)
              && s.burden == CalculateTotalBurden(s.bidPrice, TotalOf(inputs.verdicts).amount,
                                                  PropertyKindOfUsage(inputs.usageName), OutlookOf(inputs.verdicts))
              && (s.ratio.Some? <==> inputs.appraisal.Some? && 0 < inputs.appraisal.value)
              && (s.ratio.Some? ==>
                    && IsShare(s.ratio.value.min, s.burden.totalWithExtras.min, inputs.appraisal.value)
                    && IsShare(s.ratio.value.max, s.burden.totalWithExtras.max, inputs.appraisal.value))
  {
    hide CalculateTotalBurden, HasPrice, IsShare, BidFor, OutlookOf, PropertyKindOfUsage, Percent, TotalOf;
    FiveScenarios(inputs);
    hide ScenariosOf;
    forall bid { PriceIsBid(inputs, kind, bid); }
    forall s | s in ScenariosOf(inputs, ALL_KINDS) && s.kind == kind
      ensures [s] == One(inputs, kind)
    {
    }
    if BidFor(inputs, kind).Some? {
      var s := ScenarioFor(inputs, kind, BidFor(inputs, kind).value);
      assert s in One(inputs, kind);
      if s.ratio.Some? {
        ShareOf(s.burden.totalWithExtras.min, inputs.appraisal.value);
        ShareOf(s.burden.totalWithExtras.max, inputs.appraisal.value);
      }
    }
  }

  lemma ShareOf(amount: int, appraisal: int)
    requires 0 < appraisal
    ensures IsShare(Percent(amount, appraisal), amount, appraisal)
  {
    var x := amount as real / appraisal as real * 1000.0;
    RoundedIs(x);
    assert Percent(amount, appraisal) * 10.0 == Round(x) as real;
  }
}

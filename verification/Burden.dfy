/** What winning and taking over an item costs in all, as a range. Rates are exact decimals. */
module Burden {
  import opened Collections
  import opened NoticeAssumption

  datatype AmountRange = AmountRange(min: int, max: int)

  datatype PropertyKind = Housing | NonHousing

  /** The tax system of a use. An officetel is taxed as a building even when lived in; other uses are unknown. */
  function PropertyKindOfUsage(usage: Option<string>): Option<PropertyKind> {
    if usage.None? then None
    else if usage.value in HOUSING_USAGES then Some(Housing)
    else if usage.value in NON_HOUSING_USAGES then Some(NonHousing)
    else None
  }

  const HOUSING_USAGES: set<string> :=
    {"아파트", "다세대", "연립주택", "단독주택", "다가구주택", "단독주택다가구", "주택"}

  const NON_HOUSING_USAGES: set<string> :=
    {"오피스텔", "상가", "근린시설", "근린상가", "점포", "사무실",
     "공장", "창고", "숙박시설", "토지", "대지", "임야", "전", "답"}

  datatype EvictionOutlook = NoReportedTenant | TenantFullyCovered | TenantWithLoss

  datatype TotalBurden = TotalBurden(totalBurden: int, tax: AmountRange, transfer: AmountRange, eviction: AmountRange,
                                     totalWithExtras: AmountRange)

  const NON_HOUSING_RATE := 0.046

  const HOUSING_MAX_RATE := 0.134

  const TRANSFER_MIN_RATE := 0.005

  const TRANSFER_MAX_RATE := 0.015

  /** Rounds half up, as `Math.round` does. */
  function Round(x: real): int {
    (x + 0.5).Floor
  }

  /** One percent up to 600 million, three from 900 million, linear between. */
  function HousingBasicRate(price: real): real {
    if price <= 600_000_000.0 then 0.01
    else if price >= 900_000_000.0 then 0.03
    else (price * 2.0 / 300_000_000.0 - 3.0) / 100.0
  }

  function FlatTax(price: real, rate: real): int {
    Round(price * rate)
  }

  function GradedTax(price: real): int {
    Round(price * HousingBasicRate(price) * 1.1)
  }

  function AcquisitionTax(bidPrice: int, kind: Option<PropertyKind>): AmountRange {
    var price := bidPrice as real;
    var nonHousing := FlatTax(price, NON_HOUSING_RATE);
    if kind == Some(NonHousing) then AmountRange(nonHousing, nonHousing)
    else
      var housingMin := GradedTax(price);
      var housingMax := FlatTax(price, HOUSING_MAX_RATE);
      if kind == Some(Housing) then AmountRange(housingMin, housingMax)
      else AmountRange(Min(housingMin, nonHousing), Max(housingMax, nonHousing))
  }

  function TransferCost(bidPrice: int): AmountRange {
    AmountRange(Round(bidPrice as real * TRANSFER_MIN_RATE), Round(bidPrice as real * TRANSFER_MAX_RATE))
  }

  function EvictionCost(outlook: EvictionOutlook): AmountRange {
    match outlook
    case NoReportedTenant => AmountRange(0, 1_500_000)
    case TenantFullyCovered => AmountRange(500_000, 3_000_000)
    case TenantWithLoss => AmountRange(2_000_000, 7_000_000)
  }

  function CalculateTotalBurden(bidPrice: int, assumed: int, kind: Option<PropertyKind>,
                                outlook: EvictionOutlook): TotalBurden {
    var tax, transfer, eviction := AcquisitionTax(bidPrice, kind), TransferCost(bidPrice), EvictionCost(outlook);
    var total := bidPrice + assumed;
    TotalBurden(total, tax, transfer, eviction,
                AmountRange(total + tax.min + transfer.min + eviction.min,
                            total + tax.max + transfer.max + eviction.max))
  }

  // ---- laws

  predicate IsRange(r: AmountRange) { r.min <= r.max }

  /** Both ends of `r` are at or below those of `s`. */
  predicate AtMost(r: AmountRange, s: AmountRange) { r.min <= s.min && r.max <= s.max }

  predicate Covers(outer: AmountRange, inner: AmountRange) { outer.min <= inner.min && inner.max <= outer.max }

  lemma RoundIsMonotone(x: real, y: real)
    requires x <= y
    ensures Round(x) <= Round(y)
  {
  }

  lemma RateIsMonotone(p: real, q: real)
    requires p <= q
    ensures 0.01 <= HousingBasicRate(p) <= HousingBasicRate(q) <= 0.03
  {
  }

  lemma ScaleIsMonotone(p: real, q: real, a: real, b: real)
    requires 0.0 <= p <= q && 0.0 <= a <= b
    ensures 0.0 <= p * a <= q * b
  {
    assert p * a <= p * b;
  }

  /** Rounded, a fixed rate grows with the price. */
  lemma FlatRate(x: real, y: real, rate: real)
    requires 0.0 <= x <= y && 0.0 <= rate
    ensures 0 <= FlatTax(x, rate) <= FlatTax(y, rate)
  {
    ScaleIsMonotone(x, y, rate, rate);
    RoundIsMonotone(0.0, x * rate);
    RoundIsMonotone(x * rate, y * rate);
    RoundOfZero();
  }

  /** So does the graded housing rate, which stays below the top rate. */
  lemma GradedRate(x: real, y: real)
    requires 0.0 <= x <= y
    ensures 0 <= GradedTax(x) <= GradedTax(y)
    ensures GradedTax(x) <= FlatTax(x, HOUSING_MAX_RATE)
  {
    RateIsMonotone(x, y);
    var a, b := HousingBasicRate(x), HousingBasicRate(y);
    hide HousingBasicRate;
    ScaleIsMonotone(x, y, a, b);
    var low, high := x * a, y * b;
    RoundIsMonotone(0.0, low * 1.1);
    RoundIsMonotone(low * 1.1, high * 1.1);
    BelowTopRate(x, a, low);
    RoundIsMonotone(low * 1.1, x * HOUSING_MAX_RATE);
    RoundOfZero();
  }

  lemma BelowTopRate(x: real, rate: real, tax: real)
    requires 0.0 <= x && rate <= 0.03 && tax == x * rate
    ensures tax * 1.1 <= x * HOUSING_MAX_RATE
  {
    assert x * rate <= x * 0.03;
  }

  /** The tax range is a range, and each end grows with the price: across the joins of the rate at 600
      and 900 million, where the curve between is quadratic, and after rounding. */
  lemma TaxIsMonotone(p: int, q: int, kind: Option<PropertyKind>)
    requires 0 <= p <= q
    ensures IsRange(AcquisitionTax(p, kind)) && 0 <= AcquisitionTax(p, kind).min
    ensures AtMost(AcquisitionTax(p, kind), AcquisitionTax(q, kind))
  {
    var x, y := p as real, q as real;
    hide FlatTax, GradedTax;
    GradedRate(x, y);
    FlatRate(x, y, NON_HOUSING_RATE);
    FlatRate(x, y, HOUSING_MAX_RATE);
  }

  lemma RoundOfZero()
    ensures Round(0.0) == 0
  {
  }

  lemma TransferIsMonotone(p: int, q: int)
    requires 0 <= p <= q
    ensures IsRange(TransferCost(p)) && AtMost(TransferCost(p), TransferCost(q))
  {
    var x, y := p as real, q as real;
    RoundIsMonotone(x * TRANSFER_MIN_RATE, x * TRANSFER_MAX_RATE);
    RoundIsMonotone(x * TRANSFER_MIN_RATE, y * TRANSFER_MIN_RATE);
    RoundIsMonotone(x * TRANSFER_MAX_RATE, y * TRANSFER_MAX_RATE);
  }

  /** A higher bid, or more assumed, never lowers either end of the total or of any part of it. */
  lemma BurdenIsMonotone(p: int, q: int, a: int, b: int, kind: Option<PropertyKind>, outlook: EvictionOutlook)
    requires 0 <= p <= q && a <= b
    ensures var s, t := CalculateTotalBurden(p, a, kind, outlook), CalculateTotalBurden(q, b, kind, outlook);
            && IsRange(s.tax) && IsRange(s.transfer) && IsRange(s.eviction) && IsRange(s.totalWithExtras)
            && s.totalBurden <= s.totalWithExtras.min
            && AtMost(s.tax, t.tax) && AtMost(s.transfer, t.transfer)
            && AtMost(s.totalWithExtras, t.totalWithExtras)
            && t.totalWithExtras.min - s.totalWithExtras.min >= (q - p) + (b - a)
  {
    TaxIsMonotone(p, q, kind);
    TransferIsMonotone(p, q);
    TransferIsMonotone(0, p);
    assert TransferCost(0).min == 0 by { RoundOfZero(); }
    hide AcquisitionTax, TransferCost;
  }

  /** Not knowing the kind of property gives a range around the ranges of both kinds. */
  lemma UnknownKindCoversBoth(p: int, a: int, kind: PropertyKind, outlook: EvictionOutlook)
    requires 0 <= p
    ensures Covers(AcquisitionTax(p, None), AcquisitionTax(p, Some(kind)))
    ensures Covers(CalculateTotalBurden(p, a, None, outlook).totalWithExtras,
                   CalculateTotalBurden(p, a, Some(kind), outlook).totalWithExtras)
  {
    TaxIsMonotone(p, p, None);
    TaxIsMonotone(p, p, Some(Housing));
  }

  // ---- scenarios

  datatype ScenarioKind = MinimumPrice | ComparableP25 | ComparableMedian | ComparableP75 | Custom

  /** Ratios are percentages of the appraisal with one decimal. */
  datatype RatioRange = RatioRange(min: real, max: real)

  datatype Scenario = Scenario(kind: ScenarioKind, bidPrice: int, burden: TotalBurden, ratio: Option<RatioRange>)

  datatype Inputs = Inputs(
    appraisal: Option<int>,
    minimumSalePrice: Option<int>,
    bulkSale: bool,
    usageName: Option<string>,
    verdicts: seq<Verdict>,
    rateP25: Option<real>,
    rateMedian: Option<real>,
    rateP75: Option<real>,
    sampleCount: nat,
    customBidPrice: Option<int>)

  predicate MayLose(v: Verdict) {
    !v.assumption.NotAssumed? || (v.assumedAmount.Some? && v.assumedAmount.value > 0)
  }

  function OutlookOf(verdicts: seq<Verdict>): EvictionOutlook {
    if verdicts == [] then NoReportedTenant
    else if exists v :: v in verdicts && MayLose(v) then TenantWithLoss
    else TenantFullyCovered
  }

  function Percent(amount: int, appraisal: int): real
    requires 0 < appraisal
  {
    Round(amount as real / appraisal as real * 1000.0) as real / 10.0
  }

  function RatioOf(range: AmountRange, appraisal: Option<int>): Option<RatioRange> {
    if appraisal.None? || appraisal.value <= 0 then None
    else Some(RatioRange(Percent(range.min, appraisal.value), Percent(range.max, appraisal.value)))
  }

  function ScenarioFor(inputs: Inputs, kind: ScenarioKind, bidPrice: int): Scenario {
    var burden := CalculateTotalBurden(bidPrice, TotalOf(inputs.verdicts).amount, PropertyKindOfUsage(inputs.usageName),
                                       OutlookOf(inputs.verdicts));
    Scenario(kind, bidPrice, burden, RatioOf(burden.totalWithExtras, inputs.appraisal))
  }

  function BidAtRate(appraisal: int, rate: real): int {
    Round(appraisal as real * (rate / 100.0))
  }

  predicate HasComparables(inputs: Inputs) {
    !inputs.bulkSale && inputs.appraisal.Some? && inputs.appraisal.value > 0 && inputs.sampleCount > 0
  }

  /** The price a scenario of this kind is made for, if it is made. */
  function BidFor(inputs: Inputs, kind: ScenarioKind): Option<int> {
    match kind
    case MinimumPrice =>
      if !inputs.bulkSale && inputs.minimumSalePrice.Some? && inputs.minimumSalePrice.value > 0
      then inputs.minimumSalePrice else None
    case ComparableP25 => RateBid(inputs, inputs.rateP25)
    case ComparableMedian => RateBid(inputs, inputs.rateMedian)
    case ComparableP75 => RateBid(inputs, inputs.rateP75)
    case Custom =>
      if inputs.customBidPrice.Some? && inputs.customBidPrice.value > 0 then inputs.customBidPrice else None
  }

  function RateBid(inputs: Inputs, rate: Option<real>): Option<int> {
    if HasComparables(inputs) && rate.Some? then Some(BidAtRate(inputs.appraisal.value, rate.value)) else None
  }

  function ScenariosOf(inputs: Inputs, kinds: seq<ScenarioKind>): seq<Scenario> {
    if kinds == [] then []
    else
      One(inputs, kinds[0]) + ScenariosOf(inputs, kinds[1..])
  }

  const ALL_KINDS: seq<ScenarioKind> := [MinimumPrice, ComparableP25, ComparableMedian, ComparableP75, Custom]

  /** What is returned besides the inputs. */
  datatype Affordability = Affordability(assumed: AssumedTotal, scenarios: seq<Scenario>)

  method ComputeAffordability(inputs: Inputs) returns (result: Affordability)
    ensures result == Affordability(TotalOf(inputs.verdicts), ScenariosOf(inputs, ALL_KINDS))
  {
    hide ScenarioFor, BidAtRate, ScenariosOf;
    var assumed := AssumedTotalOf(inputs.verdicts);
    var scenarios: seq<Scenario> := [];
    if !inputs.bulkSale {
      if inputs.minimumSalePrice.Some? && inputs.minimumSalePrice.value > 0 {
        scenarios := scenarios + [ScenarioFor(inputs, MinimumPrice, inputs.minimumSalePrice.value)];
      }
      if inputs.appraisal.Some? && inputs.appraisal.value > 0 && inputs.sampleCount > 0 {
        if inputs.rateP25.Some? {
          var bid := BidAtRate(inputs.appraisal.value, inputs.rateP25.value);
          scenarios := scenarios + [ScenarioFor(inputs, ComparableP25, bid)];
        }
        if inputs.rateMedian.Some? {
          var bid := BidAtRate(inputs.appraisal.value, inputs.rateMedian.value);
          scenarios := scenarios + [ScenarioFor(inputs, ComparableMedian, bid)];
        }
        if inputs.rateP75.Some? {
          var bid := BidAtRate(inputs.appraisal.value, inputs.rateP75.value);
          scenarios := scenarios + [ScenarioFor(inputs, ComparableP75, bid)];
        }
      }
    }
    assert scenarios == One(inputs, MinimumPrice) + One(inputs, ComparableP25) + One(inputs, ComparableMedian)
                        + One(inputs, ComparableP75);
    if inputs.customBidPrice.Some? && inputs.customBidPrice.value > 0 {
      scenarios := scenarios + [ScenarioFor(inputs, Custom, inputs.customBidPrice.value)];
    }
    FiveScenarios(inputs);
    result := Affordability(assumed, scenarios);
  }

  function One(inputs: Inputs, kind: ScenarioKind): seq<Scenario> {
    if BidFor(inputs, kind).Some? then [ScenarioFor(inputs, kind, BidFor(inputs, kind).value)] else []
  }

  lemma FiveScenarios(inputs: Inputs)
    ensures ScenariosOf(inputs, ALL_KINDS)
            == One(inputs, MinimumPrice) + One(inputs, ComparableP25) + One(inputs, ComparableMedian)
               + One(inputs, ComparableP75) + One(inputs, Custom)
  {
    hide ScenarioFor, BidFor, One;
    var a, b, c := One(inputs, MinimumPrice), One(inputs, ComparableP25), One(inputs, ComparableMedian);
    var d, e := One(inputs, ComparableP75), One(inputs, Custom);
    assert ALL_KINDS[1..] == [ComparableP25, ComparableMedian, ComparableP75, Custom];
    assert ALL_KINDS[1..][1..] == [ComparableMedian, ComparableP75, Custom];
    assert ALL_KINDS[1..][1..][1..] == [ComparableP75, Custom];
    assert ALL_KINDS[1..][1..][1..][1..] == [Custom];
    assert ALL_KINDS[1..][1..][1..][1..][1..] == [];
    assert ScenariosOf(inputs, []) == [];
    assert ScenariosOf(inputs, [Custom]) == e + [];
    assert ScenariosOf(inputs, [ComparableP75, Custom]) == d + e;
    assert ScenariosOf(inputs, [ComparableMedian, ComparableP75, Custom]) == c + (d + e);
    assert ScenariosOf(inputs, ALL_KINDS) == a + (b + (c + (d + e)));
  }

  lemma PercentIsMonotone(a: int, b: int, appraisal: int)
    requires a <= b && 0 < appraisal
    ensures Percent(a, appraisal) <= Percent(b, appraisal)
  {
    var x, y, d := a as real, b as real, appraisal as real;
    assert x / d <= y / d;
    RoundIsMonotone(x / d * 1000.0, y / d * 1000.0);
  }

  lemma BidAtRateIsMonotone(appraisal: int, r: real, s: real)
    requires 0 < appraisal && 0.0 <= r <= s
    ensures 0 <= BidAtRate(appraisal, r) <= BidAtRate(appraisal, s)
  {
    ScaleIsMonotone(appraisal as real, appraisal as real, r / 100.0, s / 100.0);
    RoundIsMonotone(0.0, appraisal as real * (r / 100.0));
    RoundIsMonotone(appraisal as real * (r / 100.0), appraisal as real * (s / 100.0));
    RoundOfZero();
  }

  /** Of two bids the higher one gives the higher total at both ends and the higher share of the appraisal. */
  lemma HigherBidCostsMore(inputs: Inputs, k: ScenarioKind, l: ScenarioKind, p: int, q: int)
    requires HasComparables(inputs) && 0 <= p <= q
    ensures Below(ScenarioFor(inputs, k, p), ScenarioFor(inputs, l, q))
  {
    var appraisal, amount, outlook := inputs.appraisal.value, TotalOf(inputs.verdicts).amount,
        OutlookOf(inputs.verdicts);
    BurdenIsMonotone(p, q, amount, amount, PropertyKindOfUsage(inputs.usageName), outlook);
    var low := CalculateTotalBurden(p, amount, PropertyKindOfUsage(inputs.usageName), outlook).totalWithExtras;
    var high := CalculateTotalBurden(q, amount, PropertyKindOfUsage(inputs.usageName), outlook).totalWithExtras;
    hide CalculateTotalBurden, Percent;
    PercentIsMonotone(low.min, low.max, appraisal);
    PercentIsMonotone(low.min, high.min, appraisal);
    PercentIsMonotone(low.max, high.max, appraisal);
  }

  predicate Below(s: Scenario, t: Scenario) {
    && s.bidPrice <= t.bidPrice
    && AtMost(s.burden.totalWithExtras, t.burden.totalWithExtras)
    && s.ratio.Some? && t.ratio.Some?
    && s.ratio.value.min <= s.ratio.value.max
    && s.ratio.value.min <= t.ratio.value.min && s.ratio.value.max <= t.ratio.value.max
  }

  function RateOf(inputs: Inputs, kind: ScenarioKind): Option<real> {
    match kind
    case ComparableP25 => inputs.rateP25
    case ComparableMedian => inputs.rateMedian
    case ComparableP75 => inputs.rateP75
    case _ => None
  }

  function Rank(kind: ScenarioKind): nat {
    match kind
    case MinimumPrice => 0
    case ComparableP25 => 1
    case ComparableMedian => 2
    case ComparableP75 => 3
    case Custom => 4
  }

  /** Rates of sales are not negative and quantiles come in order; any of them may be missing. */
  ghost predicate QuantilesInOrder(inputs: Inputs) {
    forall k, l :: Rank(k) <= Rank(l) && RateOf(inputs, k).Some? && RateOf(inputs, l).Some? ==>
      0.0 <= RateOf(inputs, k).value <= RateOf(inputs, l).value
  }

  ghost predicate Ascending(kinds: seq<ScenarioKind>) {
    forall i, j :: 0 <= i < j < |kinds| ==> Rank(kinds[i]) < Rank(kinds[j])
  }

  /** Each scenario is the one for its kind, and the kinds come in the order they are asked for. */
  lemma {:induction false} ScenariosFollowKinds(inputs: Inputs, kinds: seq<ScenarioKind>)
    requires Ascending(kinds)
    ensures forall s :: s in ScenariosOf(inputs, kinds) ==> s.kind in kinds && One(inputs, s.kind) == [s]
    ensures forall i, j :: 0 <= i < j < |ScenariosOf(inputs, kinds)| ==>
      Rank(ScenariosOf(inputs, kinds)[i].kind) < Rank(ScenariosOf(inputs, kinds)[j].kind)
  {
    if kinds != [] {
      assert forall k :: k in kinds[1..] ==> Rank(kinds[0]) < Rank(k);
      ScenariosFollowKinds(inputs, kinds[1..]);
      assert forall s :: s in One(inputs, kinds[0]) ==> s.kind == kinds[0];
      hide Rank, CalculateTotalBurden, BidFor;
    }
  }

  /** P25, median and P75 keep their order in what is computed, whichever of them are missing: a later one has
      the higher bid, the higher total at both ends and the higher share of the appraisal. */
  lemma ScenariosKeepOrder(inputs: Inputs, i: nat, j: nat)
    requires QuantilesInOrder(inputs)
    requires i < j < |ScenariosOf(inputs, ALL_KINDS)|
    requires RateOf(inputs, ScenariosOf(inputs, ALL_KINDS)[i].kind).Some?
    requires RateOf(inputs, ScenariosOf(inputs, ALL_KINDS)[j].kind).Some?
    ensures Below(ScenariosOf(inputs, ALL_KINDS)[i], ScenariosOf(inputs, ALL_KINDS)[j])
  {
    var all := ScenariosOf(inputs, ALL_KINDS);
    ScenariosFollowKinds(inputs, ALL_KINDS);
    hide ScenariosOf;
    var k, l := all[i].kind, all[j].kind;
    assert all[i] in all && all[j] in all;
    assert Rank(k) < Rank(l);
    assert One(inputs, k) == [all[i]] && One(inputs, l) == [all[j]];
    RateScenario(inputs, k, all[i]);
    RateScenario(inputs, l, all[j]);
    var r, s := RateOf(inputs, k).value, RateOf(inputs, l).value;
    hide One, RateOf, ScenarioFor;
    BidAtRateIsMonotone(inputs.appraisal.value, r, s);
    HigherBidCostsMore(inputs, k, l, BidAtRate(inputs.appraisal.value, r), BidAtRate(inputs.appraisal.value, s));
  }

  lemma RateScenario(inputs: Inputs, kind: ScenarioKind, s: Scenario)
    requires RateOf(inputs, kind).Some?
    ensures One(inputs, kind) == [s] ==>
              && HasComparables(inputs)
              && s == ScenarioFor(inputs, kind, BidAtRate(inputs.appraisal.value, RateOf(inputs, kind).value))
  {
    hide ScenarioFor, BidAtRate;
  }
}

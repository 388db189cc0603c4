/** What the court notice alone decides about a tenant, set against the full distribution. */
module NoticeAssumption {
  import opened Collections
  import opened RightsTypes
  import opened TenantPriority
  import opened Distribution
  import opened DistributionStages
  import opened DistributionLaws
  import opened AmpleProceeds
  import opened BaselineRight

  datatype Assumption = NotAssumed | AssumedFull | AssumedAmountUnknown | Unknown

  /** A missing value is one that could not be read, not one that is known to be absent. */
  datatype NoticeTenant = NoticeTenant(
    moveInDate: Option<Date>,
    depositAmount: Option<nat>,
    demandedDistribution: Option<bool>,
    demandedDistributionDate: Option<Date>)

  datatype Verdict = Verdict(
    assumption: Assumption,
    possessionRightDate: Option<Date>,
    hasPriority: Option<bool>,
    demandEffective: Option<bool>,
    assumedAmount: Option<int>)

  const NO_DEADLINE: Date := 99991231

  function Classify(n: NoticeTenant, baselineDate: Option<Date>, deadline: Option<Date>): Verdict {
    if n.moveInDate.None? || baselineDate.None? then Verdict(Unknown, None, None, None, None)
    else
      var demanded := n.demandedDistribution.Some? && n.demandedDistribution.value;
      var deposit := if n.depositAmount.Some? then n.depositAmount.value else 0;
      var priority := AnalyzeTenantPriority(
        Tenant("notice", n.moveInDate.value, None, deposit, [], demanded, n.demandedDistributionDate),
        baselineDate.value,
        if deadline.Some? then deadline.value else NO_DEADLINE);
      var demandKnown := n.demandedDistribution.Some? && deadline.Some?;
      var effective := if demandKnown then Some(priority.distributionDemandEffective) else None;
      if !priority.hasPriority then
        Verdict(NotAssumed, Some(priority.possessionRightDate), Some(false), effective, Some(0))
      else if effective == Some(false) then
        Verdict(AssumedFull, Some(priority.possessionRightDate), Some(true), Some(false), n.depositAmount)
      else
        Verdict(AssumedAmountUnknown, Some(priority.possessionRightDate), Some(true), effective, None)
  }

  // ---- completions of a notice

  ghost predicate Agrees<T>(known: Option<T>, actual: T) {
    known.Some? ==> known.value == actual
  }

  /** `t` is what the notice tenant may turn out to be: every value that was read is right. */
  ghost predicate Completes(t: Tenant, n: NoticeTenant) {
    && Agrees(n.moveInDate, t.moveInDate)
    && Agrees(n.depositAmount, t.depositAmount)
    && Agrees(n.demandedDistribution, t.demandedDistribution)
    && (n.demandedDistributionDate.Some? ==> t.demandedDistributionDate == n.demandedDistributionDate)
  }

  /** Case `c` fits the notice, tenant `i` completes `n`, and the engine has an answer. */
  ghost predicate Fits(c: Case, i: nat, n: NoticeTenant, baselineDate: Option<Date>, deadline: Option<Date>) {
    && i < |c.tenants| && Completes(c.tenants[i], n)
    && Agrees(baselineDate, c.baselineDate) && Agrees(deadline, c.deadline)
    && DistinctIds(c) && Distribute(c).Success?
  }

  /** A demand that was read as made was read with its date. */
  predicate DemandIsDated(n: NoticeTenant) {
    n.demandedDistribution == Some(true) ==> n.demandedDistributionDate.Some?
  }

  /** Without any registry, sale price or missing value: the verdict is what the engine finds. Only what a full
      verdict says, and what it says about the demand, depends on the date of the demand having been read. */
  lemma VerdictHolds(c: Case, i: nat, n: NoticeTenant, baselineDate: Option<Date>, deadline: Option<Date>)
    requires Fits(c, i, n, baselineDate, deadline)
    ensures var v, o, t := Classify(n, baselineDate, deadline), Distribute(c).value.outcomes[i], c.tenants[i];
            && Agrees(v.possessionRightDate, c.PriorityOf(t).possessionRightDate)
            && Agrees(v.hasPriority, o.hasPriority)
            && (DemandIsDated(n) ==> Agrees(v.demandEffective, c.PriorityOf(t).distributionDemandEffective))
            && (v.assumption.NotAssumed? ==> o.assumedAmount == 0)
            && (v.assumption.AssumedFull? && (DemandIsDated(n) || n.depositAmount == Some(0)) ==>
                  o.assumedAmount == t.depositAmount)
            && (v.assumption.AssumedFull? && DemandIsDated(n) ==> PaidTo(Distribute(c).value.entries, t.id) == 0)
            && (!v.assumption.AssumedFull? || DemandIsDated(n) || n.depositAmount == Some(0) ==>
                  Agrees(v.assumedAmount, o.assumedAmount))
  {
    hide Distribute, PaidTo, AddOneDay, DistinctIds, AnalysesOf;
    assert DistinctTenants(c.tenants) by { IdsAreDistinct(c); }
    NoOverpayment(c, i);
    OwnPriority(c, c.tenants[i]);
    OutcomeHasPriority(c, i);
  }

  lemma IdsAreDistinct(c: Case)
    requires DistinctIds(c)
    ensures DistinctTenants(c.tenants)
  {
  }

  /** What was read of dates are calendar dates: the columns they are kept in hold no others. */
  ghost predicate DatesRead(n: NoticeTenant, baselineDate: Option<Date>, deadline: Option<Date>) {
    && IsDateIfAny(n.moveInDate) && IsDateIfAny(n.demandedDistributionDate)
    && IsDateIfAny(baselineDate) && IsDateIfAny(deadline)
  }

  /** A full verdict is right for every request that fits the notice. */
  ghost predicate FullVerdictHolds(n: NoticeTenant, baselineDate: Option<Date>, deadline: Option<Date>) {
    forall c: Case, i: nat :: IsRequest(c) && Fits(c, i, n, baselineDate, deadline) ==>
      Distribute(c).value.outcomes[i].assumedAmount == c.tenants[i].depositAmount
  }

  /** The verdict takes a demand without a date for no demand. It is right exactly when there is no
      such demand to be misread, or no deposit to be misjudged. */
  lemma FullVerdictExactlyWhen(n: NoticeTenant, baselineDate: Option<Date>, deadline: Option<Date>)
    requires Classify(n, baselineDate, deadline).assumption.AssumedFull? && DatesRead(n, baselineDate, deadline)
    ensures FullVerdictHolds(n, baselineDate, deadline) <==> DemandIsDated(n) || n.depositAmount == Some(0)
  {
    hide IsRequest;
    if DemandIsDated(n) || n.depositAmount == Some(0) {
      forall c: Case, i: nat | Fits(c, i, n, baselineDate, deadline)
        ensures Distribute(c).value.outcomes[i].assumedAmount == c.tenants[i].depositAmount
      {
        VerdictHolds(c, i, n, baselineDate, deadline);
      }
    } else {
      var c := LateReading(n, baselineDate.value, deadline.value);
      LateReadingIsPaid(n, baselineDate.value, deadline.value);
    }
  }

  /** A case in which the unread demand date is the deadline itself and there is money enough for everybody. */
  function LateReading(n: NoticeTenant, baselineDate: Date, deadline: Date): Case
    requires n.moveInDate.Some?
  {
    var deposit := if n.depositAmount.Some? then n.depositAmount.value else 1;
    var t := Tenant("", n.moveInDate.value, Some(20240101), deposit, [], true, Some(deadline));
    AmpleCase([t], baselineDate, deadline)
  }

  lemma LateReadingIsPaid(n: NoticeTenant, baselineDate: Date, deadline: Date)
    requires DatesRead(n, Some(baselineDate), Some(deadline))
    requires n.moveInDate.Some? && n.demandedDistribution == Some(true) && n.demandedDistributionDate.None?
    requires n.depositAmount != Some(0)
    ensures var c := LateReading(n, baselineDate, deadline);
            && IsRequest(c) && Fits(c, 0, n, Some(baselineDate), Some(deadline))
            && Distribute(c).value.outcomes[0].assumedAmount < c.tenants[0].depositAmount
  {
    hide Distribute, DistinctIds, AnalysesOf, AddOneDay, BookThree, ErrorOf, IsRequest, CoversAll, ValidDate;
    var c := LateReading(n, baselineDate, deadline);
    NewYear2024();
    AmpleIsRequest(c.tenants, baselineDate, deadline);
    AmpleRuns(c.tenants, baselineDate, deadline);
    AmpleCovers(c.tenants, baselineDate, deadline);
    OwnPriority(c, c.tenants[0]);
    AmplePaysAll(c, 0);
  }

  lemma NewYear2024()
    ensures ValidDate(20240101)
  {
    DateParts(2024, 1, 1);
  }

  // ---- the sum shown for an item

  /** A sum and whether more may be assumed than it says. */
  datatype AssumedTotal = AssumedTotal(amount: int, isLowerBound: bool)

  function AddVerdict(total: AssumedTotal, v: Verdict): AssumedTotal {
    if v.assumption.AssumedFull? && v.assumedAmount.Some? then total.(amount := total.amount + v.assumedAmount.value)
    else if v.assumption.NotAssumed? then total
    else total.(isLowerBound := true)
  }

  function TotalOf(verdicts: seq<Verdict>): AssumedTotal {
    if verdicts == [] then AssumedTotal(0, false)
    else AddVerdict(TotalOf(verdicts[..|verdicts| - 1]), verdicts[|verdicts| - 1])
  }

  method AssumedTotalOf(verdicts: seq<Verdict>) returns (total: AssumedTotal)
    ensures total == TotalOf(verdicts)
  {
    var amount, isLowerBound := 0, false;
    for i := 0 to |verdicts|
      invariant AssumedTotal(amount, isLowerBound) == TotalOf(verdicts[..i])
    {
      var v := verdicts[i];
      assert verdicts[..i + 1][..i] == verdicts[..i];
      if v.assumption.AssumedFull? && v.assumedAmount.Some? {
        amount := amount + v.assumedAmount.value;
      } else if v.assumption.AssumedAmountUnknown? || v.assumption.Unknown? {
        isLowerBound := true;
      } else if v.assumption.AssumedFull? {
        isLowerBound := true;
      }
    }
    assert verdicts[..|verdicts|] == verdicts;
    total := AssumedTotal(amount, isLowerBound);
  }

  function ClassifyAll(ns: seq<NoticeTenant>, baselineDate: Option<Date>, deadline: Option<Date>): (vs: seq<Verdict>)
    ensures |vs| == |ns|
    ensures forall i :: 0 <= i < |ns| ==> vs[i] == Classify(ns[i], baselineDate, deadline)
  {
    if ns == [] then [] else [Classify(ns[0], baselineDate, deadline)] + ClassifyAll(ns[1..], baselineDate, deadline)
  }

  function TotalAssumed(outcomes: seq<TenantOutcome>): int {
    if outcomes == [] then 0
    else TotalAssumed(outcomes[..|outcomes| - 1]) + outcomes[|outcomes| - 1].assumedAmount
  }

  // ---- the service's own classification

  datatype RightStatus = Extinguished | Assumed | NeedsReview

  datatype TenantClassification = TenantClassification(status: RightStatus, assumedAmount: int)

  function FindOutcome(outcomes: seq<TenantOutcome>, id: string): Option<TenantOutcome> {
    if outcomes == [] then None
    else if outcomes[0].tenantId == id then Some(outcomes[0])
    else FindOutcome(outcomes[1..], id)
  }

  function ClassifyTenant(t: Tenant, baselineDate: Date, deadline: Date, distribution: Option<DistributionResult>)
    : TenantClassification
  {
    var priority := AnalyzeTenantPriority(t, baselineDate, deadline);
    if !priority.hasPriority then TenantClassification(Extinguished, 0)
    else if !priority.distributionDemandEffective then TenantClassification(Assumed, t.depositAmount)
    else if distribution.None? then TenantClassification(NeedsReview, 0)
    else
      var outcome := FindOutcome(distribution.value.outcomes, t.id);
      var assumed := if outcome.Some? then outcome.value.assumedAmount else t.depositAmount;
      TenantClassification(if assumed > 0 then Assumed else Extinguished, assumed)
  }

  lemma {:induction false} FindsOutcome(outcomes: seq<TenantOutcome>, i: nat)
    requires i < |outcomes|
    requires forall j, k :: 0 <= j < k < |outcomes| ==> outcomes[j].tenantId != outcomes[k].tenantId
    ensures FindOutcome(outcomes, outcomes[i].tenantId) == Some(outcomes[i])
  {
    if i > 0 {
      FindsOutcome(outcomes[1..], i - 1);
    }
  }

  /** The service's shortcuts for tenants without priority or without an effective demand give the
      amount the engine gives, so the amounts it adds up are the engine's. A tenant is taken over exactly when
      something is left to take over, or could be for want of an effective demand. */
  lemma ServiceAgreesWithEngine(c: Case, i: nat)
    requires DistinctIds(c) && Distribute(c).Success? && i < |c.tenants|
    ensures var k, o := ClassifyTenant(c.tenants[i], c.baselineDate, c.deadline, Some(Distribute(c).value)),
                        Distribute(c).value.outcomes[i];
            && k.assumedAmount == o.assumedAmount
            && !k.status.NeedsReview?
            && (k.status.Assumed? <==>
                  || 0 < o.assumedAmount
                  || (o.hasPriority && !c.PriorityOf(c.tenants[i]).distributionDemandEffective))
  {
    hide BookThree, ErrorOf, PaidTo, AddOneDay, AnalysesOf;
    NoOverpayment(c, i);
    OutcomeHasPriority(c, i);
    OwnPriority(c, c.tenants[i]);
    FindsOutcome(Distribute(c).value.outcomes, i);
  }

  /** Without a price the service leaves exactly those open whose amount the price decides, and says of the others what
      it says with any distribution. */
  lemma OpenWithoutPrice(t: Tenant, baselineDate: Date, deadline: Date, distribution: DistributionResult)
    ensures var k, priority := ClassifyTenant(t, baselineDate, deadline, None),
                               AnalyzeTenantPriority(t, baselineDate, deadline);
            && (k.status.NeedsReview? <==> priority.hasPriority && priority.distributionDemandEffective)
            && (k.status.NeedsReview? ==> k.assumedAmount == 0)
            && (!k.status.NeedsReview? ==> k == ClassifyTenant(t, baselineDate, deadline, Some(distribution)))
  {
    hide AddOneDay;
  }
}

/** The sum read off the notice against the sum the engine makes the buyer take over: exactly when the one is
    a lower bound of the other, and equal to it when not marked as one. */
module NoticeTotals {
  import opened Collections
  import opened RightsTypes
  import opened TenantPriority
  import opened Distribution
  import opened DistributionStages
  import opened DistributionLaws
  import opened AmpleProceeds
  import opened BaselineRight
  import opened NoticeAssumption

  /** The case has exactly these tenants, each completing what the notice says; the engine takes no move-in that is
      no date. */
  ghost predicate FitsAll(c: Case, ns: seq<NoticeTenant>, baselineDate: Option<Date>, deadline: Option<Date>) {
    && |c.tenants| == |ns| && DistinctIds(c) && Distribute(c).Success?
    && (forall i :: 0 <= i < |c.tenants| ==> ValidDate(c.tenants[i].moveInDate))
    && forall i :: 0 <= i < |ns| ==> Fits(c, i, ns[i], baselineDate, deadline)
  }

  ghost predicate TotalHolds(c: Case, ns: seq<NoticeTenant>, baselineDate: Option<Date>, deadline: Option<Date>)
    requires Distribute(c).Success?
  {
    var total, outcomes := TotalOf(ClassifyAll(ns, baselineDate, deadline)), Distribute(c).value.outcomes;
    && total.amount <= TotalAssumed(outcomes)
    && (!total.isLowerBound ==> total.amount == TotalAssumed(outcomes))
  }

  function ReadDeposit(n: NoticeTenant): nat {
    if n.depositAmount.Some? then n.depositAmount.value else 0
  }

  /** What is counted for a full verdict on a demand whose date was not read: it may come to nothing. */
  function Misread(n: NoticeTenant, baselineDate: Option<Date>, deadline: Option<Date>): nat {
    if Classify(n, baselineDate, deadline).assumption.AssumedFull? && !DemandIsDated(n) then ReadDeposit(n) else 0
  }

  /** The tenant moved in early enough to oppose, whatever was not read: everybody has before the last date. */
  predicate PriorityIsCertain(n: NoticeTenant, baselineDate: Option<Date>) {
    baselineDate.Some? && if n.moveInDate.Some? then AddOneDay(n.moveInDate.value) <= baselineDate.value
                          else baselineDate.value == LAST_DATE
  }

  /** The demand was not made, or, made or not, is too late. */
  predicate DemandIsVoid(n: NoticeTenant, deadline: Option<Date>) {
    || n.demandedDistribution == Some(false)
    || (deadline.Some? && n.demandedDistributionDate.Some? && deadline.value < n.demandedDistributionDate.value)
  }

  /** What is not counted but certain. */
  function Uncounted(n: NoticeTenant, baselineDate: Option<Date>, deadline: Option<Date>): nat {
    if PriorityIsCertain(n, baselineDate) && DemandIsVoid(n, deadline)
       && !Classify(n, baselineDate, deadline).assumption.AssumedFull? then ReadDeposit(n) else 0
  }

  function TotalMisread(ns: seq<NoticeTenant>, baselineDate: Option<Date>, deadline: Option<Date>): nat {
    if ns == [] then 0
    else
      TotalMisread(ns[..|ns| - 1], baselineDate, deadline) + Misread(ns[|ns| - 1], baselineDate, deadline)
  }

  function TotalUncounted(ns: seq<NoticeTenant>, baselineDate: Option<Date>, deadline: Option<Date>): nat {
    if ns == [] then 0
    else
      TotalUncounted(ns[..|ns| - 1], baselineDate, deadline) + Uncounted(ns[|ns| - 1], baselineDate, deadline)
  }

  lemma ClassifyAllInit(ns: seq<NoticeTenant>, baselineDate: Option<Date>, deadline: Option<Date>)
    requires ns != []
    ensures var all := ClassifyAll(ns, baselineDate, deadline);
            && all[..|ns| - 1] == ClassifyAll(ns[..|ns| - 1], baselineDate, deadline)
            && all[|ns| - 1] == Classify(ns[|ns| - 1], baselineDate, deadline)
  {
  }

  // ---- never more than the engine

  /** What is known of one outcome. */
  ghost predicate OutcomeFits(n: NoticeTenant, o: TenantOutcome, baselineDate: Option<Date>, deadline: Option<Date>) {
    var v := Classify(n, baselineDate, deadline);
    && 0 <= o.assumedAmount
    && (v.assumption.NotAssumed? ==> o.assumedAmount == 0)
    && (v.assumption.AssumedFull? && Misread(n, baselineDate, deadline) == 0 && n.depositAmount.Some? ==>
          o.assumedAmount == n.depositAmount.value)
    && Uncounted(n, baselineDate, deadline) <= o.assumedAmount
  }

  lemma FitsOutcome(c: Case, i: nat, n: NoticeTenant, baselineDate: Option<Date>, deadline: Option<Date>)
    requires Fits(c, i, n, baselineDate, deadline) && ValidDate(c.tenants[i].moveInDate)
    ensures |Distribute(c).value.outcomes| == |c.tenants|
    ensures OutcomeFits(n, Distribute(c).value.outcomes[i], baselineDate, deadline)
  {
    hide Distribute, PaidTo, AddOneDay, DistinctIds, AnalysesOf;
    VerdictHolds(c, i, n, baselineDate, deadline);
    NoOverpayment(c, i);
    IdsAreDistinct(c);
    OwnPriority(c, c.tenants[i]);
    OutcomeHasPriority(c, i);
    NoDayAfterTheLast(c.tenants[i].moveInDate);
  }

  lemma NoDayAfterTheLast(d: Date)
    requires ValidDate(d)
    ensures AddOneDay(d) <= LAST_DATE
  {
    if d == LAST_DATE {
      AddOneDayOfLastDate(LAST_DATE);
    } else {
      AddOneDayIsSuccessor(d, LAST_DATE);
      DateOrder(d, LAST_DATE);
    }
  }

  /** What one verdict adds to the sum, against what its tenant adds to the engine's. */
  lemma VerdictAdds(total: AssumedTotal, n: NoticeTenant, o: TenantOutcome, baselineDate: Option<Date>,
                    deadline: Option<Date>)
    requires OutcomeFits(n, o, baselineDate, deadline)
    ensures var next := AddVerdict(total, Classify(n, baselineDate, deadline));
            var misread, uncounted := Misread(n, baselineDate, deadline), Uncounted(n, baselineDate, deadline);
            && next.amount - total.amount - misread + uncounted <= o.assumedAmount
            && (total.isLowerBound ==> next.isLowerBound)
            && (!next.isLowerBound ==> uncounted == 0)
            && (!next.isLowerBound && misread == 0 ==> next.amount - total.amount == o.assumedAmount)
  {
    hide AddOneDay;
  }

  ghost predicate AllFit(ns: seq<NoticeTenant>, outcomes: seq<TenantOutcome>, baselineDate: Option<Date>,
                         deadline: Option<Date>) {
    |ns| == |outcomes| && forall i :: 0 <= i < |ns| ==> OutcomeFits(ns[i], outcomes[i], baselineDate, deadline)
  }

  lemma AllFitInit(ns: seq<NoticeTenant>, outcomes: seq<TenantOutcome>, baselineDate: Option<Date>,
                   deadline: Option<Date>)
    requires AllFit(ns, outcomes, baselineDate, deadline) && ns != []
    ensures var n := |ns| - 1;
            && AllFit(ns[..n], outcomes[..n], baselineDate, deadline)
            && OutcomeFits(ns[n], outcomes[n], baselineDate, deadline)
  {
    hide OutcomeFits;
  }

  lemma {:induction false} TotalIsBounded(ns: seq<NoticeTenant>, outcomes: seq<TenantOutcome>,
                                          baselineDate: Option<Date>, deadline: Option<Date>)
    requires |ns| == |outcomes| && AllFit(ns, outcomes, baselineDate, deadline)
    ensures var total := TotalOf(ClassifyAll(ns, baselineDate, deadline));
            && total.amount - TotalMisread(ns, baselineDate, deadline) + TotalUncounted(ns, baselineDate, deadline)
               <= TotalAssumed(outcomes)
            && (!total.isLowerBound ==> TotalUncounted(ns, baselineDate, deadline) == 0)
            && (!total.isLowerBound && TotalMisread(ns, baselineDate, deadline) == 0 ==>
                  total.amount == TotalAssumed(outcomes))
  {
    hide Classify, ClassifyAll, AddVerdict, OutcomeFits, Misread, Uncounted, AllFit;
    if ns != [] {
      var n := |ns| - 1;
      AllFitInit(ns, outcomes, baselineDate, deadline);
      TotalIsBounded(ns[..n], outcomes[..n], baselineDate, deadline);
      ClassifyAllInit(ns, baselineDate, deadline);
      VerdictAdds(TotalOf(ClassifyAll(ns[..n], baselineDate, deadline)), ns[n], outcomes[n], baselineDate, deadline);
    }
  }

  /** The sum from the notice never exceeds what the engine makes the buyer take over, and is exactly that when it
      is not marked as a lower bound, as long as no more is misread than is certain and uncounted. */
  lemma NoticeTotalIsSound(c: Case, ns: seq<NoticeTenant>, baselineDate: Option<Date>, deadline: Option<Date>)
    ensures FitsAll(c, ns, baselineDate, deadline)
            && TotalMisread(ns, baselineDate, deadline) <= TotalUncounted(ns, baselineDate, deadline) ==>
              TotalHolds(c, ns, baselineDate, deadline)
  {
    hide Distribute, OutcomeFits, Fits, Classify, TotalOf, ClassifyAll, TotalAssumed, DistinctIds, TotalMisread,
         TotalUncounted;
    if FitsAll(c, ns, baselineDate, deadline)
       && TotalMisread(ns, baselineDate, deadline) <= TotalUncounted(ns, baselineDate, deadline) {
      var outcomes := Distribute(c).value.outcomes;
      OutcomeCount(c);
      forall i | 0 <= i < |ns|
        ensures OutcomeFits(ns[i], outcomes[i], baselineDate, deadline)
      {
        FitsOutcome(c, i, ns[i], baselineDate, deadline);
      }
      TotalIsBounded(ns, outcomes, baselineDate, deadline);
    }
  }

  lemma OutcomeCount(c: Case)
    requires Distribute(c).Success?
    ensures |Distribute(c).value.outcomes| == |c.tenants|
  {
    hide ErrorOf, BookThree;
  }

  /** Where every demand that was read as made has its date, nothing is misread. */
  lemma {:induction false} DatedIsNotMisread(ns: seq<NoticeTenant>, baselineDate: Option<Date>, deadline: Option<Date>)
    requires forall i :: 0 <= i < |ns| ==> DemandIsDated(ns[i])
    ensures TotalMisread(ns, baselineDate, deadline) == 0
  {
    if ns != [] {
      DatedIsNotMisread(ns[..|ns| - 1], baselineDate, deadline);
    }
  }

  // ---- the worst case

  function IdOf(i: nat): string { seq(i, _ => 'a') }

  lemma PossessionAfter(baselineDate: Date)
    requires ValidDate(baselineDate)
    ensures AddOneDay(baselineDate) <= baselineDate <==> baselineDate == LAST_DATE
  {
    if baselineDate == LAST_DATE {
      AddOneDayOfLastDate(baselineDate);
    } else {
      AddOneDayIsSuccessor(baselineDate, baselineDate);
    }
  }

  /** The tenant as badly as the notice allows: in time where that can be, too late to oppose where that can be,
      dated, and without a deposit where none was read. */
  function WorstOf(n: NoticeTenant, i: nat, baselineDate: Date, deadline: Date): Tenant {
    Tenant(IdOf(i), if n.moveInDate.Some? then n.moveInDate.value else baselineDate, Some(20240101),
           ReadDeposit(n), [],
           n.demandedDistribution.None? || n.demandedDistribution.value,
           if n.demandedDistributionDate.Some? then n.demandedDistributionDate else Some(deadline))
  }

  function WorstTenants(ns: seq<NoticeTenant>, baselineDate: Date, deadline: Date): (ts: seq<Tenant>)
    ensures |ts| == |ns|
    ensures forall i :: 0 <= i < |ns| ==> ts[i] == WorstOf(ns[i], i, baselineDate, deadline)
  {
    if ns == [] then []
    else
      WorstTenants(ns[..|ns| - 1], baselineDate, deadline) + [WorstOf(ns[|ns| - 1], |ns| - 1, baselineDate, deadline)]
  }

  function WorstCase(ns: seq<NoticeTenant>, baselineDate: Date, deadline: Date): Case {
    AmpleCase(WorstTenants(ns, baselineDate, deadline), baselineDate, deadline)
  }

  ghost predicate AllDatesRead(ns: seq<NoticeTenant>, baselineDate: Option<Date>, deadline: Option<Date>) {
    IsDateIfAny(baselineDate) && IsDateIfAny(deadline)
    && forall i :: 0 <= i < |ns| ==> DatesRead(ns[i], baselineDate, deadline)
  }

  lemma WorstIds(ns: seq<NoticeTenant>, baselineDate: Date, deadline: Date)
    ensures var tenants := WorstTenants(ns, baselineDate, deadline);
            && DistinctTenants(tenants) && Undivided(tenants)
            && forall i :: 0 <= i < |tenants| ==> tenants[i].id != "r" && tenants[i].id != "s"
  {
    hide WorstTenants;
    var tenants := WorstTenants(ns, baselineDate, deadline);
    forall i, j | 0 <= i < j < |tenants|
      ensures tenants[i].id != tenants[j].id
    {
      assert |IdOf(i)| == i && |IdOf(j)| == j;
    }
    forall i | 0 <= i < |tenants|
      ensures tenants[i].id != "r" && tenants[i].id != "s"
    {
      assert i > 0 ==> IdOf(i)[0] == 'a';
      assert |IdOf(i)| == i;
    }
  }

  lemma WorstIsRequest(ns: seq<NoticeTenant>, baselineDate: Date, deadline: Date)
    requires AllDatesRead(ns, Some(baselineDate), Some(deadline))
    ensures IsRequest(WorstCase(ns, baselineDate, deadline))
    ensures IsRequest(PoorCase(WorstTenants(ns, baselineDate, deadline), baselineDate, deadline))
    ensures forall t :: t in WorstTenants(ns, baselineDate, deadline) ==> ValidDate(t.moveInDate)
  {
    hide IsRequest, ValidDate;
    NewYear2024();
    AmpleIsRequest(WorstTenants(ns, baselineDate, deadline), baselineDate, deadline);
  }

  lemma WorstRuns(ns: seq<NoticeTenant>, baselineDate: Date, deadline: Date)
    requires AllDatesRead(ns, Some(baselineDate), Some(deadline))
    ensures var c := WorstCase(ns, baselineDate, deadline);
            && IsRequest(c) && FitsAll(c, ns, Some(baselineDate), Some(deadline)) && CoversAll(c)
            && Undivided(c.tenants)
  {
    hide Distribute, DistinctIds, IsRequest, CoversAll, WorstTenants, ValidDate, TotalDeposits, AllDatesRead;
    var tenants := WorstTenants(ns, baselineDate, deadline);
    WorstIsRequest(ns, baselineDate, deadline);
    WorstIds(ns, baselineDate, deadline);
    AmpleRuns(tenants, baselineDate, deadline);
    AmpleCovers(tenants, baselineDate, deadline);
  }

  /** What the verdict puts into the sum. */
  function Counted(n: NoticeTenant, baselineDate: Option<Date>, deadline: Option<Date>): nat {
    if Classify(n, baselineDate, deadline).assumption.AssumedFull? then ReadDeposit(n) else 0
  }

  /** In the worst case the buyer takes over what is counted, less what was misread, plus what is certain. */
  lemma WorstOutcome(ns: seq<NoticeTenant>, baselineDate: Date, deadline: Date, i: nat)
    requires AllDatesRead(ns, Some(baselineDate), Some(deadline)) && i < |ns|
    ensures var c := WorstCase(ns, baselineDate, deadline); var b, d := Some(baselineDate), Some(deadline);
            && Distribute(c).Success? && |Distribute(c).value.outcomes| == |ns|
            && Distribute(c).value.outcomes[i].assumedAmount
               == Counted(ns[i], b, d) - Misread(ns[i], b, d) + Uncounted(ns[i], b, d)
  {
    hide Distribute, DistinctIds, WorstTenants, AddOneDay, ValidDate, AllDatesRead, IsRequest, CoversAll,
         AnalysesOf, PaidTo, Undivided, AmpleCase;
    var c := WorstCase(ns, baselineDate, deadline);
    WorstRuns(ns, baselineDate, deadline);
    AmpleFields(WorstTenants(ns, baselineDate, deadline), baselineDate, deadline);
    IdsAreDistinct(c);
    OwnPriority(c, c.tenants[i]);
    assert ValidDate(baselineDate) by { BaselineIsDate(ns, baselineDate, deadline); }
    PossessionAfter(baselineDate);
    NoOverpayment(c, i);
    OutcomeHasPriority(c, i);
    if c.PriorityOf(c.tenants[i]).distributionDemandEffective {
      AmplePaysAll(c, i);
    }
  }

  lemma BaselineIsDate(ns: seq<NoticeTenant>, baselineDate: Date, deadline: Date)
    requires AllDatesRead(ns, Some(baselineDate), Some(deadline))
    ensures ValidDate(baselineDate)
  {
    hide ValidDate;
  }

  lemma AmpleFields(tenants: seq<Tenant>, baselineDate: Date, deadline: Date)
    ensures var c := AmpleCase(tenants, baselineDate, deadline);
            c.tenants == tenants && c.baselineDate == baselineDate && c.deadline == deadline
  {
  }

  lemma {:induction false} WorstTotal(ns: seq<NoticeTenant>, outcomes: seq<TenantOutcome>, baselineDate: Option<Date>,
                                      deadline: Option<Date>)
    requires |outcomes| == |ns|
    requires forall i :: 0 <= i < |ns| ==>
               outcomes[i].assumedAmount == Counted(ns[i], baselineDate, deadline)
                                            - Misread(ns[i], baselineDate, deadline)
                                            + Uncounted(ns[i], baselineDate, deadline)
    ensures TotalAssumed(outcomes)
            == TotalOf(ClassifyAll(ns, baselineDate, deadline)).amount
               - TotalMisread(ns, baselineDate, deadline) + TotalUncounted(ns, baselineDate, deadline)
  {
    hide Classify, ClassifyAll, AddVerdict, Misread, Uncounted, Counted;
    if ns != [] {
      var n := |ns| - 1;
      assert forall i :: 0 <= i < n ==> ns[..n][i] == ns[i] && outcomes[..n][i] == outcomes[i];
      WorstTotal(ns[..n], outcomes[..n], baselineDate, deadline);
      ClassifyAllInit(ns, baselineDate, deadline);
      CountedAdds(TotalOf(ClassifyAll(ns[..n], baselineDate, deadline)), ns[n], baselineDate, deadline);
    }
  }

  lemma CountedAdds(total: AssumedTotal, n: NoticeTenant, baselineDate: Option<Date>, deadline: Option<Date>)
    ensures AddVerdict(total, Classify(n, baselineDate, deadline)).amount
            == total.amount + Counted(n, baselineDate, deadline)
  {
    hide AddOneDay;
  }

  lemma {:induction false} MisreadNeedsDates(ns: seq<NoticeTenant>, baselineDate: Option<Date>, deadline: Option<Date>)
    requires 0 < TotalMisread(ns, baselineDate, deadline)
    ensures baselineDate.Some? && deadline.Some?
  {
    hide AddOneDay;
    if Misread(ns[|ns| - 1], baselineDate, deadline) == 0 {
      MisreadNeedsDates(ns[..|ns| - 1], baselineDate, deadline);
    }
  }

  /** The sum read off the notice holds for every request that fits it exactly when no more deposits are misread
      than are certain and uncounted. */
  lemma NoticeTotalExactlyWhen(ns: seq<NoticeTenant>, baselineDate: Option<Date>, deadline: Option<Date>)
    requires AllDatesRead(ns, baselineDate, deadline)
    ensures (forall c :: IsRequest(c) && FitsAll(c, ns, baselineDate, deadline) ==>
               TotalHolds(c, ns, baselineDate, deadline))
            <==> TotalMisread(ns, baselineDate, deadline) <= TotalUncounted(ns, baselineDate, deadline)
  {
    hide Distribute, TotalOf, ClassifyAll, TotalAssumed, DistinctIds, Fits, TotalMisread, TotalUncounted, Misread,
         Uncounted, Counted, AmpleCase, Undivided, IsRequest, CoversAll, ValidDate, AllDatesRead;
    if TotalMisread(ns, baselineDate, deadline) <= TotalUncounted(ns, baselineDate, deadline) {
      forall c | FitsAll(c, ns, baselineDate, deadline)
        ensures TotalHolds(c, ns, baselineDate, deadline)
      {
        NoticeTotalIsSound(c, ns, baselineDate, deadline);
      }
    } else {
      MisreadNeedsDates(ns, baselineDate, deadline);
      var c := WorstCase(ns, baselineDate.value, deadline.value);
      WorstRuns(ns, baselineDate.value, deadline.value);
      OutcomeCount(c);
      forall i | 0 <= i < |ns|
        ensures Distribute(c).value.outcomes[i].assumedAmount
                == Counted(ns[i], baselineDate, deadline) - Misread(ns[i], baselineDate, deadline)
                   + Uncounted(ns[i], baselineDate, deadline)
      {
        WorstOutcome(ns, baselineDate.value, deadline.value, i);
      }
      WorstTotal(ns, Distribute(c).value.outcomes, baselineDate, deadline);
      assert IsRequest(c) && FitsAll(c, ns, baselineDate, deadline) && !TotalHolds(c, ns, baselineDate, deadline);
    }
  }
}

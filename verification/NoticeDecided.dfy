/** The converse of what a verdict says: where everything was read, the notice decides exactly what all requests that
    fit it agree on, tenant by tenant and in the sum. */
module NoticeDecided {
  import opened Collections
  import opened RightsTypes
  import opened TenantPriority
  import opened Distribution
  import opened DistributionStages
  import opened BaselineRight
  import opened AmpleProceeds
  import opened NoticeAssumption
  import opened NoticeTotals

  // ---- what a verdict says at all

  /** A verdict is given exactly when the move-in and the baseline were read. It then says when possession starts and
      whether that is in time; it says whether the demand is, exactly when the demand and the deadline were read; and
      it names an amount exactly when nothing is assumed, or all of a deposit that was read. */
  lemma SaysWhatWasRead(n: NoticeTenant, baselineDate: Option<Date>, deadline: Option<Date>)
    ensures var v := Classify(n, baselineDate, deadline);
            && (v.assumption.Unknown? <==> n.moveInDate.None? || baselineDate.None?)
            && (v.possessionRightDate.Some? <==> n.moveInDate.Some? && baselineDate.Some?)
            && (v.hasPriority.Some? <==> n.moveInDate.Some? && baselineDate.Some?)
            && (v.demandEffective.Some? <==>
                  && n.moveInDate.Some? && baselineDate.Some? && n.demandedDistribution.Some? && deadline.Some?)
            && (v.assumedAmount.Some? <==>
                  v.assumption.NotAssumed? || (v.assumption.AssumedFull? && n.depositAmount.Some?))
            && (v.possessionRightDate.Some? ==> v.possessionRightDate.value == AddOneDay(n.moveInDate.value))
            && (v.hasPriority.Some? ==>
                  (v.hasPriority.value <==> AddOneDay(n.moveInDate.value) <= baselineDate.value))
            && (v.demandEffective.Some? ==>
                  (v.demandEffective.value <==>
                     && n.demandedDistribution.value && n.demandedDistributionDate.Some?
                     && n.demandedDistributionDate.value <= deadline.value))
  {
    hide AddOneDay;
  }

  // ---- one tenant

  /** The tenant with what was read; a demand that was not read was not made, a deposit that was not read is a won. */
  function ReadingOf(n: NoticeTenant): Tenant
    requires n.moveInDate.Some?
  {
    Tenant("", n.moveInDate.value, Some(20240101), if n.depositAmount.Some? then n.depositAmount.value else 1, [],
           n.demandedDistribution.Some? && n.demandedDistribution.value, n.demandedDistributionDate)
  }

  lemma ReadingFits(n: NoticeTenant, baselineDate: Date, deadline: Option<Date>, actual: Date)
    requires n.moveInDate.Some? && DatesRead(n, Some(baselineDate), deadline)
    requires ValidDate(actual) && Agrees(deadline, actual)
    ensures var rich, poor := AmpleCase([ReadingOf(n)], baselineDate, actual),
                              PoorCase([ReadingOf(n)], baselineDate, actual);
            && IsRequest(rich) && Fits(rich, 0, n, Some(baselineDate), deadline) && CoversAll(rich)
            && IsRequest(poor) && Fits(poor, 0, n, Some(baselineDate), deadline)
            && rich.PriorityOf(ReadingOf(n)) == poor.PriorityOf(ReadingOf(n))
               == AnalyzeTenantPriority(ReadingOf(n), baselineDate, actual)
  {
    hide IsRequest, Distribute, DistinctIds, CoversAll, AddOneDay, AnalysesOf, TotalDeposits, ValidDate;
    NewYear2024();
    AmpleIsRequest([ReadingOf(n)], baselineDate, actual);
    AmpleRuns([ReadingOf(n)], baselineDate, actual);
    AmpleCovers([ReadingOf(n)], baselineDate, actual);
    var rich, poor := AmpleCase([ReadingOf(n)], baselineDate, actual), PoorCase([ReadingOf(n)], baselineDate, actual);
    OwnPriority(rich, ReadingOf(n));
    OwnPriority(poor, ReadingOf(n));
  }

  /** Where the move-in and the baseline were read: nothing is assumed is the verdict exactly when every request that
      fits assumes nothing. */
  lemma NotAssumedExactlyWhen(n: NoticeTenant, baselineDate: Date, deadline: Option<Date>)
    requires n.moveInDate.Some? && DatesRead(n, Some(baselineDate), deadline) && n.depositAmount != Some(0)
    ensures Classify(n, Some(baselineDate), deadline).assumption.NotAssumed?
            <==> forall c: Case, i: nat :: IsRequest(c) && Fits(c, i, n, Some(baselineDate), deadline) ==>
                   Distribute(c).value.outcomes[i].assumedAmount == 0
  {
    hide IsRequest, BookThree, ErrorOf, DistinctIds, AddOneDay, AnalysesOf, CoversAll, ValidDate, AmpleCase;
    if Classify(n, Some(baselineDate), deadline).assumption.NotAssumed? {
      forall c: Case, i: nat | Fits(c, i, n, Some(baselineDate), deadline)
        ensures Distribute(c).value.outcomes[i].assumedAmount == 0
      {
        VerdictHolds(c, i, n, Some(baselineDate), deadline);
      }
    } else {
      var actual := if deadline.Some? then deadline.value else 20240101;
      NewYear2024();
      ReadingFits(n, baselineDate, deadline, actual);
      var poor := PoorCase([ReadingOf(n)], baselineDate, actual);
      PoorFields([ReadingOf(n)], baselineDate, actual);
      NoProceedsPayNobody(poor, 0);
    }
  }

  lemma PoorFields(tenants: seq<Tenant>, baselineDate: Date, deadline: Date)
    ensures var c := PoorCase(tenants, baselineDate, deadline);
            && c.tenants == tenants && c.saleAmount <= c.auctionCost
            && c.baselineDate == baselineDate && c.deadline == deadline
  {
  }

  /** Where the demand and the deadline were read as well: the whole deposit is the verdict exactly when every request
      that fits assumes the whole deposit. */
  lemma AssumedFullExactlyWhen(n: NoticeTenant, baselineDate: Date, deadline: Date)
    requires n.moveInDate.Some? && DatesRead(n, Some(baselineDate), Some(deadline)) && n.depositAmount != Some(0)
    requires n.demandedDistribution.Some? && DemandIsDated(n)
    ensures Classify(n, Some(baselineDate), Some(deadline)).assumption.AssumedFull?
            <==> forall c: Case, i: nat :: IsRequest(c) && Fits(c, i, n, Some(baselineDate), Some(deadline)) ==>
                   Distribute(c).value.outcomes[i].assumedAmount == c.tenants[i].depositAmount
  {
    hide IsRequest, BookThree, ErrorOf, DistinctIds, AddOneDay, AnalysesOf, CoversAll, ValidDate, AmpleCase;
    var v := Classify(n, Some(baselineDate), Some(deadline));
    if v.assumption.AssumedFull? {
      forall c: Case, i: nat | Fits(c, i, n, Some(baselineDate), Some(deadline))
        ensures Distribute(c).value.outcomes[i].assumedAmount == c.tenants[i].depositAmount
      {
        VerdictHolds(c, i, n, Some(baselineDate), Some(deadline));
      }
    } else {
      ReadingFits(n, baselineDate, Some(deadline), deadline);
      var t := ReadingOf(n);
      var rich := AmpleCase([t], baselineDate, deadline);
      AmpleFields([t], baselineDate, deadline);
      if v.assumption.NotAssumed? {
        VerdictHolds(rich, 0, n, Some(baselineDate), Some(deadline));
      } else {
        assert rich.PriorityOf(rich.tenants[0]).distributionDemandEffective;
        AmplePaysAll(rich, 0);
      }
    }
  }

  // ---- the sum

  /** Everything about the tenant was read, and a demand with its date. */
  ghost predicate FullyRead(n: NoticeTenant) {
    && n.moveInDate.Some? && n.demandedDistribution.Some? && DemandIsDated(n)
    && n.depositAmount.Some? && 0 < n.depositAmount.value
  }

  /** What is certain is counted. */
  lemma NothingUncounted(n: NoticeTenant, baselineDate: Date, deadline: Date)
    requires FullyRead(n)
    ensures Uncounted(n, Some(baselineDate), Some(deadline)) == 0
    ensures Misread(n, Some(baselineDate), Some(deadline)) == 0
  {
    hide AddOneDay;
  }

  function WorstPoor(ns: seq<NoticeTenant>, baselineDate: Date, deadline: Date): Case {
    PoorCase(WorstTenants(ns, baselineDate, deadline), baselineDate, deadline)
  }

  lemma PoorRuns(ns: seq<NoticeTenant>, baselineDate: Date, deadline: Date)
    requires AllDatesRead(ns, Some(baselineDate), Some(deadline))
    ensures var c := WorstPoor(ns, baselineDate, deadline);
            && IsRequest(c) && FitsAll(c, ns, Some(baselineDate), Some(deadline))
  {
    hide Distribute, DistinctIds, IsRequest, WorstTenants, ValidDate, TotalDeposits, AllDatesRead, AmpleCase;
    var tenants := WorstTenants(ns, baselineDate, deadline);
    WorstIsRequest(ns, baselineDate, deadline);
    WorstIds(ns, baselineDate, deadline);
    AmpleRuns(tenants, baselineDate, deadline);
    PoorFields(tenants, baselineDate, deadline);
  }

  /** With ample proceeds and with none: no tenant is better off without, and one whose amount is open is worse off. */
  lemma PoorIsWorse(ns: seq<NoticeTenant>, baselineDate: Date, deadline: Date, i: nat)
    requires AllDatesRead(ns, Some(baselineDate), Some(deadline)) && i < |ns| && FullyRead(ns[i])
    ensures var rich, poor := Distribute(WorstCase(ns, baselineDate, deadline)),
                              Distribute(WorstPoor(ns, baselineDate, deadline));
            && rich.Success? && poor.Success? && |rich.value.outcomes| == |poor.value.outcomes| == |ns|
            && rich.value.outcomes[i].assumedAmount <= poor.value.outcomes[i].assumedAmount
            && (Classify(ns[i], Some(baselineDate), Some(deadline)).assumption.AssumedAmountUnknown? ==>
                  rich.value.outcomes[i].assumedAmount < poor.value.outcomes[i].assumedAmount)
  {
    hide Distribute, DistinctIds, WorstTenants, AddOneDay, ValidDate, AllDatesRead, IsRequest, CoversAll,
         AnalysesOf, PaidTo, Undivided, AmpleCase, NoticeAssumption.Classify;
    var rich, poor := WorstCase(ns, baselineDate, deadline), WorstPoor(ns, baselineDate, deadline);
    WorstRuns(ns, baselineDate, deadline);
    PoorRuns(ns, baselineDate, deadline);
    WorstOutcome(ns, baselineDate, deadline, i);
    PoorFields(WorstTenants(ns, baselineDate, deadline), baselineDate, deadline);
    NoProceedsPayNobody(poor, i);
    IdsAreDistinct(poor);
    OwnPriority(poor, poor.tenants[i]);
    NothingUncounted(ns[i], baselineDate, deadline);
    OpenMeansPriority(ns[i], i, baselineDate, deadline);
  }

  lemma OpenMeansPriority(n: NoticeTenant, i: nat, baselineDate: Date, deadline: Date)
    requires FullyRead(n)
    ensures var v := Classify(n, Some(baselineDate), Some(deadline)).assumption;
            var t := WorstOf(n, i, baselineDate, deadline);
            && t.depositAmount == n.depositAmount.value
            && (AnalyzeTenantPriority(t, baselineDate, deadline).hasPriority <==> !v.NotAssumed?)
            && Counted(n, Some(baselineDate), Some(deadline)) == (if v.AssumedFull? then t.depositAmount else 0)
            && !v.Unknown?
  {
    hide AddOneDay;
  }

  lemma {:induction false} SumsDiffer(low: seq<TenantOutcome>, high: seq<TenantOutcome>, k: int)
    requires |low| == |high| && k < |low|
    requires forall i :: 0 <= i < |low| ==> low[i].assumedAmount <= high[i].assumedAmount
    requires 0 <= k ==> low[k].assumedAmount < high[k].assumedAmount
    ensures TotalAssumed(low) <= TotalAssumed(high)
    ensures 0 <= k ==> TotalAssumed(low) < TotalAssumed(high)
  {
    if low != [] {
      var n := |low| - 1;
      SumsDiffer(low[..n], high[..n], if k == n then -1 else k);
    }
  }

  lemma {:induction false} MarkedMeansOpen(ns: seq<NoticeTenant>, baselineDate: Date, deadline: Date) returns (k: nat)
    requires forall i :: 0 <= i < |ns| ==> FullyRead(ns[i])
    requires TotalOf(ClassifyAll(ns, Some(baselineDate), Some(deadline))).isLowerBound
    ensures k < |ns| && Classify(ns[k], Some(baselineDate), Some(deadline)).assumption.AssumedAmountUnknown?
  {
    hide Classify;
    var n := |ns| - 1;
    ClassifyAllInit(ns, Some(baselineDate), Some(deadline));
    OpenMeansPriority(ns[n], n, baselineDate, deadline);
    assert FullyRead(ns[n]) && Classify(ns[n], Some(baselineDate), Some(deadline)).assumption.AssumedFull? ==>
        Classify(ns[n], Some(baselineDate), Some(deadline)).assumedAmount.Some? by {
      SaysWhatWasRead(ns[n], Some(baselineDate), Some(deadline));
    }
    if Classify(ns[n], Some(baselineDate), Some(deadline)).assumption.AssumedAmountUnknown? {
      k := n;
    } else {
      k := MarkedMeansOpen(ns[..n], baselineDate, deadline);
    }
  }

  lemma {:induction false} FullyReadIsNotMisread(ns: seq<NoticeTenant>, baselineDate: Date, deadline: Date)
    requires forall i :: 0 <= i < |ns| ==> FullyRead(ns[i])
    ensures TotalMisread(ns, Some(baselineDate), Some(deadline)) == 0
    ensures TotalUncounted(ns, Some(baselineDate), Some(deadline)) == 0
  {
    hide Misread, Uncounted, FullyRead;
    if ns != [] {
      NothingUncounted(ns[|ns| - 1], baselineDate, deadline);
      FullyReadIsNotMisread(ns[..|ns| - 1], baselineDate, deadline);
    }
  }

  /** Where everything was read of all tenants: the sum is not marked as a lower bound exactly when all requests that
      fit agree on what the buyer takes over. */
  lemma UnmarkedExactlyWhen(ns: seq<NoticeTenant>, baselineDate: Date, deadline: Date)
    requires AllDatesRead(ns, Some(baselineDate), Some(deadline)) && forall i :: 0 <= i < |ns| ==> FullyRead(ns[i])
    ensures !TotalOf(ClassifyAll(ns, Some(baselineDate), Some(deadline))).isLowerBound
            <==> forall c, c' :: && IsRequest(c) && FitsAll(c, ns, Some(baselineDate), Some(deadline))
                                 && IsRequest(c') && FitsAll(c', ns, Some(baselineDate), Some(deadline)) ==>
                   TotalAssumed(Distribute(c).value.outcomes) == TotalAssumed(Distribute(c').value.outcomes)
  {
    hide Distribute, TotalOf, ClassifyAll, TotalAssumed, DistinctIds, Fits, TotalMisread, TotalUncounted, AmpleCase,
         Undivided, IsRequest, CoversAll, ValidDate, AllDatesRead, FullyRead, Classify, WorstTenants;
    FullyReadIsNotMisread(ns, baselineDate, deadline);
    var total := TotalOf(ClassifyAll(ns, Some(baselineDate), Some(deadline)));
    if total.isLowerBound {
      var k := MarkedMeansOpen(ns, baselineDate, deadline);
      var rich, poor := WorstCase(ns, baselineDate, deadline), WorstPoor(ns, baselineDate, deadline);
      WorstRuns(ns, baselineDate, deadline);
      PoorRuns(ns, baselineDate, deadline);
      forall i | 0 <= i < |ns| { PoorIsWorse(ns, baselineDate, deadline, i); }
      PoorIsWorse(ns, baselineDate, deadline, k);
      SumsDiffer(Distribute(rich).value.outcomes, Distribute(poor).value.outcomes, k);
    } else {
      forall c | FitsAll(c, ns, Some(baselineDate), Some(deadline))
        ensures TotalAssumed(Distribute(c).value.outcomes) == total.amount
      {
        NoticeTotalIsSound(c, ns, Some(baselineDate), Some(deadline));
      }
    }
  }
}

/** When a tenant's opposing power starts, and whether the demand for distribution is in time. */
module TenantPriority {
  import opened Collections
  import opened RightsTypes

  predicate IsLeapYear(year: int) {
    year % 4 == 0 && (year % 100 != 0 || year % 400 == 0)
  }

  function DaysInMonth(year: int, month: int): int {
    if month == 2 then (if IsLeapYear(year) then 29 else 28)
    else if month in {4, 6, 9, 11} then 30
    else 31
  }

  function YearOf(d: Date): int { d / 10000 }

  function MonthOf(d: Date): int { d / 100 % 100 }

  function DayOf(d: Date): int { d % 100 }

  function DateOf(year: int, month: int, day: int): Date {
    year * 10000 + month * 100 + day
  }

  predicate ValidDate(d: Date) {
    0 <= YearOf(d) <= 9999 && 1 <= MonthOf(d) <= 12 && 1 <= DayOf(d) <= DaysInMonth(YearOf(d), MonthOf(d))
  }

  /** Thirty days hath September; and the leap day is there every fourth year, but not every hundredth unless it is
      every four-hundredth. */
  lemma CalendarDates(year: int, month: int, day: int)
    requires 0 <= year <= 9999 && 1 <= month <= 12 && 1 <= day <= 31
    ensures month in {1, 3, 5, 7, 8, 10, 12} ==> ValidDate(DateOf(year, month, day))
    ensures month in {4, 6, 9, 11} ==> (ValidDate(DateOf(year, month, day)) <==> day <= 30)
    ensures month == 2 ==>
              (ValidDate(DateOf(year, month, day)) <==>
                 day <= 28 || (day == 29 && year % 4 == 0 && (year % 100 == 0 ==> year % 400 == 0)))
  {
    DateParts(year, month, day);
  }

  const LAST_DATE: Date := 99991231

  /** Past 9999-12-31 the source prints `+010000-01`, and `+` sorts before every digit. */
  const BEFORE_EVERY_DATE: Date := -1

  function AddOneDay(d: Date): Date {
    var year, month, day := YearOf(d), MonthOf(d), DayOf(d);
    if day < DaysInMonth(year, month) then DateOf(year, month, day + 1)
    else if month < 12 then DateOf(year, month + 1, 1)
    else if year < 9999 then DateOf(year + 1, 1, 1)
    else BEFORE_EVERY_DATE
  }

  lemma DateParts(year: int, month: int, day: int)
    requires 0 <= month <= 99 && 0 <= day <= 99
    ensures YearOf(DateOf(year, month, day)) == year
    ensures MonthOf(DateOf(year, month, day)) == month
    ensures DayOf(DateOf(year, month, day)) == day
  {
    assert DateOf(year, month, day) / 100 == year * 100 + month;
  }

  lemma DateFromParts(d: Date)
    ensures d == DateOf(YearOf(d), MonthOf(d), DayOf(d))
    ensures 0 <= MonthOf(d) <= 99 && 0 <= DayOf(d) <= 99
  {
    assert d / 100 / 100 == d / 10000;
  }

  /** Comparing the numbers is comparing year, month and day in turn. */
  lemma DateOrder(d: Date, e: Date)
    ensures d < e <==>
            || YearOf(d) < YearOf(e)
            || (YearOf(d) == YearOf(e) && MonthOf(d) < MonthOf(e))
            || (YearOf(d) == YearOf(e) && MonthOf(d) == MonthOf(e) && DayOf(d) < DayOf(e))
  {
    DateFromParts(d);
    DateFromParts(e);
  }

  /** The next day is the least date after `d`, month lengths and leap years included. */
  lemma AddOneDayIsSuccessor(d: Date, other: Date)
    requires ValidDate(d) && d != LAST_DATE
    requires ValidDate(other)
    ensures ValidDate(AddOneDay(d)) && d < AddOneDay(d)
    ensures d < other ==> AddOneDay(d) <= other
  {
    var year, month, day := YearOf(d), MonthOf(d), DayOf(d);
    DateFromParts(d);
    DateParts(year, month, day + 1);
    DateParts(year, month + 1, 1);
    DateParts(year + 1, 1, 1);
    DateOrder(d, AddOneDay(d));
    DateOrder(d, other);
    DateOrder(other, AddOneDay(d));
  }

  /** The one date whose successor sorts the wrong way round. */
  lemma AddOneDayOfLastDate(other: Date)
    requires ValidDate(other)
    ensures ValidDate(LAST_DATE) && AddOneDay(LAST_DATE) < other
  {
  }

  datatype TenantPriorityResult =
    TenantPriorityResult(possessionRightDate: Date, hasPriority: bool, distributionDemandEffective: bool)

  function AnalyzeTenantPriority(tenant: Tenant, baselineDate: Date, deadline: Date): TenantPriorityResult {
    var possessionRightDate := AddOneDay(tenant.moveInDate);
    TenantPriorityResult(
      possessionRightDate,
      possessionRightDate <= baselineDate,
      && tenant.demandedDistribution
      && tenant.demandedDistributionDate.Some?
      && tenant.demandedDistributionDate.value <= deadline)
  }

  /** Opposing power: the tenant moved in on an earlier day than the baseline right. The last representable day,
      whose successor sorts first, is the one exception. */
  lemma PriorityExactlyWhen(tenant: Tenant, baselineDate: Date, deadline: Date)
    requires ValidDate(tenant.moveInDate) && ValidDate(baselineDate)
    ensures AnalyzeTenantPriority(tenant, baselineDate, deadline).hasPriority
            <==> tenant.moveInDate < baselineDate || tenant.moveInDate == LAST_DATE
  {
    if tenant.moveInDate == LAST_DATE {
      AddOneDayOfLastDate(baselineDate);
    } else {
      AddOneDayIsSuccessor(tenant.moveInDate, baselineDate);
    }
  }

  /** A demand counts when it was made with a date, and by the deadline, the day itself included. */
  lemma DemandExactlyWhen(tenant: Tenant, baselineDate: Date, deadline: Date)
    ensures AnalyzeTenantPriority(tenant, baselineDate, deadline).distributionDemandEffective
            <==> tenant.demandedDistribution
                 && exists date :: tenant.demandedDistributionDate == Some(date) && date <= deadline
  {
    if tenant.demandedDistributionDate.Some? {
      assert tenant.demandedDistributionDate == Some(tenant.demandedDistributionDate.value);
    }
  }
}

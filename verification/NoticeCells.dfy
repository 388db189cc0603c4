/** Cells of the court notice's tenant table: the demand cell and the deposit cell. A deposit cell is
    given as its tokens, a fixed-date cell as the dates its numbered entries parse to. */
module NoticeCells {
  import opened Collections
  import opened RightsTypes
  import opened Distribution

  // ---- demand for distribution

  /** `date` is the date the cell parses to, `saysNone` whether its text contains the word for none. */
  datatype DemandCell = Blank | Text(date: Option<Date>, saysNone: bool)

  function DemandDate(cell: DemandCell): Option<Date> {
    if cell.Blank? then None else cell.date
  }

  function Demanded(cell: DemandCell): Option<bool> {
    if DemandDate(cell).Some? then Some(true)
    else if cell.Blank? then None
    else if cell.saysNone then Some(false)
    else None
  }

  /** A demand was made exactly when its date can be read, and not made only where the court says so; any other text,
      and a blank cell, leaves it open. */
  lemma DemandIsReadExactlyWhen(cell: DemandCell)
    ensures Demanded(cell) == Some(true) <==> cell.Text? && cell.date.Some?
    ensures Demanded(cell) == Some(false) <==> cell.Text? && cell.date.None? && cell.saysNone
    ensures forall date :: DemandDate(cell) == Some(date) <==> cell.Text? && cell.date == Some(date)
  {
  }

  // ---- the deposit and its shares

  /** `n)`, an amount with thousands commas, a bare number, the word for an increase, a word for an
      unknown value, anything else. */
  datatype Token = Ordinal | Amount(value: nat) | Digits(number: nat) | IncreaseWord | UnknownWord | OtherText

  /** Amounts above this are several cells run together. */
  const MAX_PLAUSIBLE_AMOUNT: nat := 1_000_000_000_000

  function Plausible(value: nat): Option<nat> {
    if value <= MAX_PLAUSIBLE_AMOUNT then Some(value) else None
  }

  function Amounts(cell: seq<Token>): seq<nat> {
    if cell == [] then []
    else if cell[0].Amount? then [cell[0].value] + Amounts(cell[1..])
    else Amounts(cell[1..])
  }

  function NumberedAmounts(cell: seq<Token>): seq<nat> {
    if |cell| < 2 then []
    else if cell[0].Ordinal? && cell[1].Amount? then [cell[1].value] + NumberedAmounts(cell[1..])
    else NumberedAmounts(cell[1..])
  }

  predicate NumberedAt(cell: seq<Token>, i: nat) {
    i + 1 < |cell| && cell[i].Ordinal? && (cell[i + 1].Amount? || cell[i + 1].Digits?)
  }

  predicate HasNumberedValue(cell: seq<Token>) {
    exists i :: 0 <= i < |cell| && NumberedAt(cell, i)
  }

  /** `korean` is what the reading of amounts written in words makes of the cell. */
  function ParseAmount(cell: seq<Token>, korean: Option<nat>): Option<nat> {
    if cell == [] || UnknownWord in cell then None
    else if |cell| == 1 && cell[0].Amount? then Plausible(cell[0].value)
    else if |cell| == 1 && cell[0].Digits? then Plausible(cell[0].number)
    else
      var amounts := Amounts(cell);
      if amounts == [] then korean
      else Plausible(if HasNumberedValue(cell) then amounts[|amounts| - 1] else amounts[0])
  }

  /** The running totals a cell states, in either of the two ways increases are written. */
  function Cumulative(cell: seq<Token>, nDates: nat): Option<seq<nat>> {
    var numbered, amounts := NumberedAmounts(cell), Amounts(cell);
    if nDates < 2 then None
    else if |numbered| >= 2 then (if |numbered| == nDates then Some(numbered) else None)
    else if IncreaseWord in cell && nDates == 2 && |amounts| == 2 && 0 < amounts[1] < amounts[0]
    then Some([amounts[0] - amounts[1], amounts[0]])
    else None
  }

  ghost predicate Increasing(totals: seq<nat>) {
    (totals != [] ==> 0 < totals[0]) && forall i :: 0 < i < |totals| ==> totals[i - 1] < totals[i]
  }

  /** Shares that are positive, dated by `dates`, and whose running totals are `totals`. */
  ghost predicate Splits(tranches: seq<DepositTranche>, totals: seq<nat>, dates: seq<Option<Date>>) {
    && |tranches| == |totals| == |dates|
    && (tranches != [] ==>
          var n := |tranches| - 1;
          && 0 < tranches[n].amount && tranches[n].fixedDate == dates[n]
          && TrancheTotal(tranches) == totals[n]
          && Splits(tranches[..n], totals[..n], dates[..n]))
  }

  lemma {:induction false} TotalOfPush(tranches: seq<DepositTranche>, last: DepositTranche)
    ensures TrancheTotal(tranches + [last]) == TrancheTotal(tranches) + last.amount
  {
    if tranches == [] {
      assert tranches + [last] == [last];
      assert [last][1..] == [];
    } else {
      assert (tranches + [last])[1..] == tranches[1..] + [last];
      TotalOfPush(tranches[1..], last);
    }
  }

  lemma SplitsPush(tranches: seq<DepositTranche>, totals: seq<nat>, dates: seq<Option<Date>>, amount: nat, total: nat,
                   date: Option<Date>)
    requires Splits(tranches, totals, dates)
    requires 0 < amount && TrancheTotal(tranches) + amount == total
    ensures Splits(tranches + [DepositTranche(amount, date)], totals + [total], dates + [date])
    ensures TrancheTotal(tranches + [DepositTranche(amount, date)]) == total
  {
    var tranche := DepositTranche(amount, date);
    TotalOfPush(tranches, tranche);
    assert (tranches + [tranche])[..|tranches|] == tranches;
    assert (totals + [total])[..|totals|] == totals && (dates + [date])[..|dates|] == dates;
  }

  method ParseDepositTranches(cell: seq<Token>, dates: seq<Option<Date>>) returns (result: Option<seq<DepositTranche>>)
    ensures result.Some? <==> Cumulative(cell, |dates|).Some? && Increasing(Cumulative(cell, |dates|).value)
    ensures result.Some? ==> Splits(result.value, Cumulative(cell, |dates|).value, dates)
  {
    var cumulative := Cumulative(cell, |dates|);
    if cumulative.None? {
      return None;
    }
    var totals: seq<nat> := cumulative.value;
    hide Cumulative, TrancheTotal;
    var tranches: seq<DepositTranche> := [];
    var previous: int := 0;
    assert TrancheTotal([]) == 0 by { TotalOfNothing(); }
    for i := 0 to |totals|
      invariant previous == if i == 0 then 0 else totals[i - 1]
      invariant TrancheTotal(tranches) == previous
      invariant Increasing(totals[..i])
      invariant Splits(tranches, totals[..i], dates[..i])
    {
      var total := totals[i];
      assert totals[..i + 1] == totals[..i] + [total];
      assert dates[..i + 1] == dates[..i] + [dates[i]];
      var amount: int := total - previous;
      if amount <= 0 {
        assert !Increasing(totals) by {
          assert if i == 0 then !(0 < totals[0]) else !(totals[i - 1] < totals[i]);
        }
        return None;
      }
      SplitsPush(tranches, totals[..i], dates[..i], amount, total, dates[i]);
      tranches := tranches + [DepositTranche(amount, dates[i])];
      previous := total;
    }
    assert totals[..|totals|] == totals && dates[..|totals|] == dates;
    result := Some(tranches);
  }

  lemma TotalOfNothing()
    ensures TrancheTotal([]) == 0
  {
  }

  // ---- what a deposit is read as

  /** Position `i` holds the only amount, or the first one, or the last one. */
  ghost predicate IsFirstAmount(cell: seq<Token>, i: nat) {
    i < |cell| && cell[i].Amount? && forall j :: 0 <= j < i ==> !cell[j].Amount?
  }

  ghost predicate IsLastAmount(cell: seq<Token>, i: nat) {
    i < |cell| && cell[i].Amount? && forall j :: i < j < |cell| ==> !cell[j].Amount?
  }

  lemma {:induction false} AmountsInOrder(cell: seq<Token>)
    ensures Amounts(cell) == [] <==> forall i :: 0 <= i < |cell| ==> !cell[i].Amount?
    ensures forall i: nat :: IsFirstAmount(cell, i) ==> Amounts(cell) != [] && Amounts(cell)[0] == cell[i].value
    ensures forall i: nat :: IsLastAmount(cell, i) ==>
              Amounts(cell) != [] && Amounts(cell)[|Amounts(cell)| - 1] == cell[i].value
  {
    if cell != [] {
      var rest := cell[1..];
      AmountsInOrder(rest);
      assert forall i :: 0 < i < |cell| ==> cell[i] == rest[i - 1];
      forall i: nat | IsFirstAmount(cell, i) && i > 0
        ensures IsFirstAmount(rest, i - 1)
      {
      }
      forall i: nat | IsLastAmount(cell, i) && i > 0
        ensures IsLastAmount(rest, i - 1)
      {
        assert forall j :: i - 1 < j < |rest| ==> rest[j] == cell[j + 1];
      }
    }
  }

  /** The deposit is the current total: with several amounts the last one where they are numbered and the first one
      where they are not; above a trillion it is no amount, and a word for an unknown value leaves it open. */
  lemma DepositIsCurrentTotal(cell: seq<Token>, korean: Option<nat>, i: nat)
    ensures UnknownWord in cell || cell == [] ==> ParseAmount(cell, korean) == None
    ensures forall v :: cell == [Amount(v)] || cell == [Digits(v)] ==>
              ParseAmount(cell, korean) == if v <= 1_000_000_000_000 then Some(v) else None
    ensures UnknownWord !in cell && 1 < |cell|
            && (if HasNumberedValue(cell) then IsLastAmount(cell, i) else IsFirstAmount(cell, i)) ==>
              ParseAmount(cell, korean) == if cell[i].value <= 1_000_000_000_000 then Some(cell[i].value) else None
    ensures UnknownWord !in cell && 1 < |cell| && (forall j :: 0 <= j < |cell| ==> !cell[j].Amount?) ==>
              ParseAmount(cell, korean) == korean
  {
    AmountsInOrder(cell);
  }

  // ---- shares written down and read back

  /** The running totals of the shares. */
  function RunningTotals(shares: seq<DepositTranche>): (totals: seq<nat>)
    ensures |totals| == |shares|
  {
    if shares == [] then [] else RunningTotals(shares[..|shares| - 1]) + [TrancheTotal(shares)]
  }

  function DatesOf(shares: seq<DepositTranche>): (dates: seq<Option<Date>>)
    ensures |dates| == |shares|
  {
    if shares == [] then [] else DatesOf(shares[..|shares| - 1]) + [shares[|shares| - 1].fixedDate]
  }

  ghost predicate AllPositive(shares: seq<DepositTranche>) {
    forall i :: 0 <= i < |shares| ==> 0 < shares[i].amount
  }

  lemma {:induction false} TotalsIncrease(shares: seq<DepositTranche>)
    requires AllPositive(shares)
    ensures Increasing(RunningTotals(shares))
    ensures shares != [] ==> RunningTotals(shares)[|shares| - 1] == TrancheTotal(shares)
  {
    if shares != [] {
      var n := |shares| - 1;
      TotalsIncrease(shares[..n]);
      TotalOfPush(shares[..n], shares[n]);
      assert shares == shares[..n] + [shares[n]];
      TotalOfNothing();
    }
  }

  /** Only the shares themselves have their running totals and their dates. */
  lemma {:induction false} SplitsOnlyAs(tranches: seq<DepositTranche>, shares: seq<DepositTranche>)
    requires Splits(tranches, RunningTotals(shares), DatesOf(shares))
    ensures tranches == shares
  {
    if shares != [] {
      var n := |shares| - 1;
      assert RunningTotals(shares)[..n] == RunningTotals(shares[..n]) && DatesOf(shares)[..n] == DatesOf(shares[..n]);
      SplitsOnlyAs(tranches[..n], shares[..n]);
      TotalOfPush(tranches[..n], tranches[n]);
      TotalOfPush(shares[..n], shares[n]);
      assert tranches == tranches[..n] + [tranches[n]] && shares == shares[..n] + [shares[n]];
    }
  }

  /** Two or more shares, written down as numbered running totals with their dates, are read back as they are. */
  lemma SharesReadBack(shares: seq<DepositTranche>)
    requires AllPositive(shares) && 2 <= |shares|
    ensures Cumulative(NumberedCell(RunningTotals(shares)), |shares|) == Some(RunningTotals(shares))
    ensures Increasing(RunningTotals(shares))
    ensures forall tranches :: Splits(tranches, RunningTotals(shares), DatesOf(shares)) ==> tranches == shares
  {
    TotalsIncrease(shares);
    NumberedCellReads(RunningTotals(shares));
    forall tranches | Splits(tranches, RunningTotals(shares), DatesOf(shares))
      ensures tranches == shares
    {
      SplitsOnlyAs(tranches, shares);
    }
  }

  /** So is one increase: what was there before with the first date, and the increase with the second. Other numbers of
      dates, and an increase that is nothing or everything, are not read at all. */
  lemma IncreaseReadsBack(before: nat, increase: nat, n: nat, first: Option<Date>, second: Option<Date>)
    ensures var total := before + increase;
            var shares := [DepositTranche(before, first), DepositTranche(increase, second)];
            && Cumulative(IncreaseCell(total, increase), n)
               == (if n == 2 && 0 < increase && 0 < before then Some([before, total]) else None)
            && RunningTotals(shares) == [before, total] && DatesOf(shares) == [first, second]
            && forall tranches :: Splits(tranches, [before, total], [first, second]) ==> tranches == shares
  {
    var total := before + increase;
    var shares := [DepositTranche(before, first), DepositTranche(increase, second)];
    IncreaseCellReads(total, increase);
    assert IncreaseCell(total, increase)[3] == IncreaseWord;
    assert shares[..1] == [shares[0]] && [shares[0]][..0] == [] && shares[1..] == [shares[1]];
    assert [shares[0]][1..] == [] && [shares[1]][1..] == [];
    TotalOfNothing();
    assert TrancheTotal([shares[0]]) == before && TrancheTotal([shares[1]]) == increase;
    assert RunningTotals([shares[0]]) == [before] && DatesOf([shares[0]]) == [first];
    assert RunningTotals(shares) == [before, total] && DatesOf(shares) == [first, second];
    forall tranches | Splits(tranches, [before, total], [first, second])
      ensures tranches == shares
    {
      SplitsOnlyAs(tranches, shares);
    }
  }

  /** Numbered totals are not read when the dates are fewer or more. */
  lemma NumberedNeedsAsManyDates(totals: seq<nat>, n: nat)
    ensures Cumulative(NumberedCell(totals), n) == if 2 <= n == |totals| then Some(totals) else None
  {
    NumberedCellReads(totals);
    NoIncreaseWord(totals);
  }

  lemma {:induction false} NoIncreaseWord(totals: seq<nat>)
    ensures IncreaseWord !in NumberedCell(totals)
  {
    if totals != [] { NoIncreaseWord(totals[1..]); }
  }

  // ---- the two readings of one cell

  lemma {:induction false} NumberedIsValue(cell: seq<Token>)
    ensures NumberedAmounts(cell) != [] ==> HasNumberedValue(cell)
  {
    if |cell| >= 2 {
      NumberedIsValue(cell[1..]);
      if cell[0].Ordinal? && cell[1].Amount? {
        assert NumberedAt(cell, 0);
      } else if HasNumberedValue(cell[1..]) {
        var i :| 0 <= i < |cell[1..]| && NumberedAt(cell[1..], i);
        assert NumberedAt(cell, i + 1);
      }
    }
  }

  lemma {:induction false} NumberedAreAmounts(cell: seq<Token>)
    ensures |NumberedAmounts(cell)| <= |Amounts(cell)|
    ensures cell != [] && cell[0].Amount? ==> |NumberedAmounts(cell)| < |Amounts(cell)|
  {
    if |cell| >= 2 {
      NumberedAreAmounts(cell[1..]);
    } else if |cell| == 1 {
      assert cell[1..] == [];
    }
  }

  /** The amount the cell is read as is the last one stated in its shares. */
  predicate ReadsCurrentTotal(cell: seq<Token>) {
    var numbered, amounts := NumberedAmounts(cell), Amounts(cell);
    if |numbered| >= 2 then amounts != [] && amounts[|amounts| - 1] == numbered[|numbered| - 1]
    else !HasNumberedValue(cell)
  }

  /** Deposit and shares of one cell agree exactly when no word for an unknown value stands in it, the
      total is within the cap, and no amount after the last numbered one hides it (in the numbered
      way of writing) or no number is set before a value (in the other way). */
  lemma SharesAgreeExactlyWhen(
    cell: seq<Token>, dates: seq<Option<Date>>, korean: Option<nat>, tranches: seq<DepositTranche>)
    requires Cumulative(cell, |dates|).Some?
    requires Splits(tranches, Cumulative(cell, |dates|).value, dates)
    ensures ParseAmount(cell, korean) == Some(TrancheTotal(tranches)) <==>
            UnknownWord !in cell && TrancheTotal(tranches) <= MAX_PLAUSIBLE_AMOUNT && ReadsCurrentTotal(cell)
  {
    var totals, amounts := Cumulative(cell, |dates|).value, Amounts(cell);
    NumberedIsValue(cell);
    NumberedAreAmounts(cell);
  }

  function NumberedCell(totals: seq<nat>): seq<Token> {
    if totals == [] then [] else [Ordinal, Amount(totals[0])] + NumberedCell(totals[1..])
  }

  lemma {:induction false} NumberedCellReads(totals: seq<nat>)
    ensures Amounts(NumberedCell(totals)) == totals
    ensures NumberedAmounts(NumberedCell(totals)) == totals
    ensures UnknownWord !in NumberedCell(totals)
    ensures totals != [] ==> NumberedCell(totals)[0].Ordinal?
  {
    if totals != [] {
      var rest := NumberedCell(totals[1..]);
      NumberedCellReads(totals[1..]);
      NumberedEntryReads(totals[0], rest);
    }
  }

  lemma NumberedEntryReads(total: nat, rest: seq<Token>)
    requires rest != [] ==> rest[0].Ordinal?
    ensures Amounts([Ordinal, Amount(total)] + rest) == [total] + Amounts(rest)
    ensures NumberedAmounts([Ordinal, Amount(total)] + rest) == [total] + NumberedAmounts(rest)
  {
    var cell := [Ordinal, Amount(total)] + rest;
    assert cell[1..] == [Amount(total)] + rest;
    assert cell[1..][1..] == rest;
    if rest == [] {
      assert NumberedAmounts(cell[1..]) == [] == NumberedAmounts(rest);
    } else {
      assert !cell[1..][0].Ordinal?;
    }
  }

  /** `210,000,000(2022.6.1. 10,000,000 <increase>)` */
  function IncreaseCell(total: nat, increase: nat): seq<Token> {
    [Amount(total), OtherText, Amount(increase), IncreaseWord]
  }

  lemma IncreaseCellReads(total: nat, increase: nat)
    ensures Amounts(IncreaseCell(total, increase)) == [total, increase]
    ensures NumberedAmounts(IncreaseCell(total, increase)) == []
    ensures !HasNumberedValue(IncreaseCell(total, increase))
  {
    var cell := IncreaseCell(total, increase);
    var cell1, cell2, cell3: seq<Token> :=
      [OtherText, Amount(increase), IncreaseWord], [Amount(increase), IncreaseWord], [IncreaseWord];
    assert cell[1..] == cell1 && cell1[1..] == cell2 && cell2[1..] == cell3 && cell3[1..] == [];
    assert Amounts(cell3) == [] && Amounts(cell2) == [increase] && Amounts(cell1) == [increase];
    assert NumberedAmounts(cell3) == [] && NumberedAmounts(cell2) == [] && NumberedAmounts(cell1) == [];
  }

  predicate IsDocumentedCell(cell: seq<Token>) {
    || cell == NumberedCell(NumberedAmounts(cell))
    || (|cell| == 4 && cell[0].Amount? && cell[2].Amount? && cell == IncreaseCell(cell[0].value, cell[2].value))
  }

  /** Both documented ways of writing an increase: once shares are returned, they add up to the deposit
      read from the same cell, so the engine cannot reject them as a mismatch. */
  lemma DocumentedCellsMatch(cell: seq<Token>, dates: seq<Option<Date>>, korean: Option<nat>, tenant: Tenant)
    requires IsDocumentedCell(cell)
    requires Cumulative(cell, |dates|).Some?
    requires Splits(tenant.depositTranches, Cumulative(cell, |dates|).value, dates)
    requires TrancheTotal(tenant.depositTranches) <= MAX_PLAUSIBLE_AMOUNT
    ensures ParseAmount(cell, korean) == Some(TrancheTotal(tenant.depositTranches))
    ensures Some(tenant.depositAmount) == ParseAmount(cell, korean) ==> DepositTranchesOf(tenant).Success?
  {
    if cell == NumberedCell(NumberedAmounts(cell)) {
      NumberedCellReads(NumberedAmounts(cell));
    } else {
      IncreaseCellReads(cell[0].value, cell[2].value);
    }
    SharesAgreeExactlyWhen(cell, dates, korean, tenant.depositTranches);
  }
}

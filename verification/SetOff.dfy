/** Which shares of a deposit earlier money is set off against. The engine takes the earliest first; of all ways to
    spread it, this one leaves the tenant with the least in the last stage, so that what the buyer takes over is
    never made to look smaller. */
module SetOff {
  import opened Collections
  import opened RightsTypes
  import opened Distribution
  import opened DistributionStages
  import opened ClaimReduction

  /** The claims of one claimant in `late` trail those in `early`: at every point no more was claimed so far,
      counting `debt`. The claims of all others are the same and not negative. */
  ghost predicate Trails(id: string, debt: int, late: seq<PriorityClaim>, early: seq<PriorityClaim>)
    decreases |early|
  {
    if early == [] then late == [] && 0 <= debt
    else
      || (late != [] && SameOther(id, late[0], early[0]) && Trails(id, debt, late[1..], early[1..]))
      || (late != [] && BothOwn(id, late[0], early[0])
          && 0 <= debt + early[0].remainingClaim - late[0].remainingClaim
          && Trails(id, debt + early[0].remainingClaim - late[0].remainingClaim, late[1..], early[1..]))
      || (IsOwn(id, early[0]) && Trails(id, debt + early[0].remainingClaim, late, early[1..]))
  }

  predicate IsOwn(id: string, x: PriorityClaim) { x.claimantId == id && 0 <= x.remainingClaim }

  predicate SameOther(id: string, x: PriorityClaim, y: PriorityClaim) {
    x == y && x.claimantId != id && 0 <= x.remainingClaim
  }

  predicate BothOwn(id: string, x: PriorityClaim, y: PriorityClaim) {
    IsOwn(id, x) && IsOwn(id, y) && x.priorityDate == y.priorityDate
  }

  // ---- whoever claims later gets no more

  lemma {:induction false} PaidWithinCash(id: string, debt: int, cash: int, late: seq<PriorityClaim>,
                                          early: seq<PriorityClaim>)
    requires Trails(id, debt, late, early) && 0 <= cash
    ensures 0 <= PaidIn(cash, late, id) <= cash
    decreases |early|
  {
    if early != [] && late != [] && 0 < cash {
      var rest := cash - Min(cash, late[0].remainingClaim);
      if SameOther(id, late[0], early[0]) && Trails(id, debt, late[1..], early[1..]) {
        PaidWithinCash(id, debt, rest, late[1..], early[1..]);
      } else if BothOwn(id, late[0], early[0]) && 0 <= debt + early[0].remainingClaim - late[0].remainingClaim
                && Trails(id, debt + early[0].remainingClaim - late[0].remainingClaim, late[1..], early[1..]) {
        PaidWithinCash(id, debt + early[0].remainingClaim - late[0].remainingClaim, rest, late[1..], early[1..]);
      } else {
        PaidWithinCash(id, debt + early[0].remainingClaim, cash, late, early[1..]);
      }
    }
  }

  /** `cash` is what the later claims still find, `cash'` what the earlier ones do: less by the debt, or nothing. */
  lemma {:induction false} TrailingPaysLess(id: string, debt: int, cash: int, cash': int, late: seq<PriorityClaim>,
                                            early: seq<PriorityClaim>)
    requires Trails(id, debt, late, early)
    requires 0 <= cash' <= cash && 0 <= debt && (0 < cash' ==> cash - cash' == debt)
    ensures PaidIn(cash, late, id) <= PaidIn(cash', early, id) + cash - cash'
    decreases |early|
  {
    PaidWithinCash(id, debt, cash, late, early);
    if early != [] && 0 < cash' {
      var rest' := cash' - Min(cash', early[0].remainingClaim);
      if late != [] && SameOther(id, late[0], early[0]) && Trails(id, debt, late[1..], early[1..]) {
        TrailingPaysLess(id, debt, cash - Min(cash, late[0].remainingClaim), rest', late[1..], early[1..]);
      } else if late != [] && BothOwn(id, late[0], early[0])
                && 0 <= debt + early[0].remainingClaim - late[0].remainingClaim
                && Trails(id, debt + early[0].remainingClaim - late[0].remainingClaim, late[1..], early[1..]) {
        TrailingPaysLess(id, debt + early[0].remainingClaim - late[0].remainingClaim,
                         cash - Min(cash, late[0].remainingClaim), rest', late[1..], early[1..]);
      } else {
        TrailingPaysLess(id, debt + early[0].remainingClaim, cash, rest', late, early[1..]);
      }
    }
  }

  // ---- sorting keeps the order of the two

  lemma {:induction false} TrailsStartsLater(id: string, debt: int, late: seq<PriorityClaim>, early: seq<PriorityClaim>)
    requires Trails(id, debt, late, early) && late != [] && early != [] && SortedBy(early, PriorityDateOf)
    ensures PriorityDateOf(early[0]) <= PriorityDateOf(late[0])
    decreases |early|
  {
    if !SameOther(id, late[0], early[0]) && !BothOwn(id, late[0], early[0]) {
      assert early[1..] != [];
      TrailsStartsLater(id, debt + early[0].remainingClaim, late, early[1..]);
      assert early[1..][0] == early[1];
    }
  }

  lemma {:induction false} TrailsInsertOther(id: string, debt: int, x: PriorityClaim, late: seq<PriorityClaim>,
                                             early: seq<PriorityClaim>)
    requires Trails(id, debt, late, early) && SortedBy(early, PriorityDateOf) && SameOther(id, x, x)
    ensures Trails(id, debt, Insert(x, late, PriorityDateOf), Insert(x, early, PriorityDateOf))
    decreases |early|
  {
    if early == [] || PriorityDateOf(x) <= PriorityDateOf(early[0]) {
      if early != [] && late != [] { TrailsStartsLater(id, debt, late, early); }
      assert ([x] + late)[1..] == late && ([x] + early)[1..] == early;
    } else {
      var rest := Insert(x, early[1..], PriorityDateOf);
      assert ([early[0]] + rest)[1..] == rest;
      var shift := if late == [] then 0 else early[0].remainingClaim - late[0].remainingClaim;
      if late != [] && SameOther(id, late[0], early[0]) && Trails(id, debt, late[1..], early[1..]) {
        TrailsInsertOther(id, debt, x, late[1..], early[1..]);
        assert ([late[0]] + Insert(x, late[1..], PriorityDateOf))[1..] == Insert(x, late[1..], PriorityDateOf);
      } else if late != [] && BothOwn(id, late[0], early[0]) && 0 <= debt + shift
                && Trails(id, debt + shift, late[1..], early[1..]) {
        TrailsInsertOther(id, debt + shift, x, late[1..], early[1..]);
        assert ([late[0]] + Insert(x, late[1..], PriorityDateOf))[1..] == Insert(x, late[1..], PriorityDateOf);
      } else {
        TrailsInsertOther(id, debt + early[0].remainingClaim, x, late, early[1..]);
      }
    }
  }

  /** Every claim of this claimant is dated `date` or later. */
  ghost predicate OwnFrom(id: string, date: Date, claims: seq<PriorityClaim>) {
    forall i :: 0 <= i < |claims| && claims[i].claimantId == id ==> date <= claims[i].priorityDate
  }

  lemma {:induction false} TrailsInsertBoth(id: string, debt: int, x: PriorityClaim, y: PriorityClaim,
                                            late: seq<PriorityClaim>, early: seq<PriorityClaim>)
    requires BothOwn(id, x, y) && 0 <= debt + y.remainingClaim - x.remainingClaim
    requires Trails(id, debt + y.remainingClaim - x.remainingClaim, late, early)
    requires SortedBy(early, PriorityDateOf) && OwnFrom(id, y.priorityDate, early)
    ensures Trails(id, debt, Insert(x, late, PriorityDateOf), Insert(y, early, PriorityDateOf))
    decreases |early|
  {
    if early == [] || PriorityDateOf(y) <= PriorityDateOf(early[0]) {
      if early != [] && late != [] {
        TrailsStartsLater(id, debt + y.remainingClaim - x.remainingClaim, late, early);
      }
      assert ([x] + late)[1..] == late && ([y] + early)[1..] == early;
    } else {
      var rest, rest' := Insert(y, early[1..], PriorityDateOf), Insert(x, late[1..], PriorityDateOf);
      assert ([early[0]] + rest)[1..] == rest && ([late[0]] + rest')[1..] == rest';
      TrailsInsertBoth(id, debt, x, y, late[1..], early[1..]);
    }
  }

  lemma {:induction false} TrailsInsertEarly(id: string, debt: int, y: PriorityClaim, late: seq<PriorityClaim>,
                                             early: seq<PriorityClaim>)
    requires IsOwn(id, y) && Trails(id, debt + y.remainingClaim, late, early)
    requires SortedBy(early, PriorityDateOf) && OwnFrom(id, y.priorityDate, early)
    ensures Trails(id, debt, late, Insert(y, early, PriorityDateOf))
    decreases |early|
  {
    if early == [] || PriorityDateOf(y) <= PriorityDateOf(early[0]) {
      assert ([y] + early)[1..] == early;
    } else {
      var rest := Insert(y, early[1..], PriorityDateOf);
      assert ([early[0]] + rest)[1..] == rest;
      TrailsInsertEarly(id, debt, y, late[1..], early[1..]);
    }
  }

  ghost predicate Others(id: string, claims: seq<PriorityClaim>) {
    forall i :: 0 <= i < |claims| ==> SameOther(id, claims[i], claims[i])
  }

  lemma {:induction false} OthersTrail(id: string, debt: int, claims: seq<PriorityClaim>)
    requires Others(id, claims) && 0 <= debt
    ensures Trails(id, debt, claims, claims)
  {
    if claims != [] {
      OthersTrail(id, debt, claims[1..]);
    }
  }

  lemma OthersSorted(id: string, claims: seq<PriorityClaim>)
    requires Others(id, claims)
    ensures Others(id, StableSort(claims, PriorityDateOf))
  {
    var sorted := StableSort(claims, PriorityDateOf);
    forall i | 0 <= i < |sorted|
      ensures SameOther(id, sorted[i], sorted[i])
    {
      SortedClaimsMember(claims, sorted[i]);
    }
  }

  lemma {:induction false} TrailsSort(id: string, debt: int, before: seq<PriorityClaim>, late: seq<PriorityClaim>,
                                      early: seq<PriorityClaim>)
    requires Others(id, before)
    requires Trails(id, debt, StableSort(late, PriorityDateOf), StableSort(early, PriorityDateOf))
    ensures Trails(id, debt, StableSort(before + late, PriorityDateOf), StableSort(before + early, PriorityDateOf))
    decreases |before|
  {
    if before == [] {
      assert before + late == late && before + early == early;
    } else {
      assert (before + late)[1..] == before[1..] + late && (before + early)[1..] == before[1..] + early;
      TrailsSort(id, debt, before[1..], late, early);
      StableSortSorts(before[1..] + early, PriorityDateOf);
      TrailsInsertOther(id, debt, before[0], StableSort(before[1..] + late, PriorityDateOf),
                        StableSort(before[1..] + early, PriorityDateOf));
    }
  }

  // ---- ways to set off

  function TotalOf(offsets: seq<nat>): nat {
    if offsets == [] then 0 else offsets[0] + TotalOf(offsets[1..])
  }

  /** A way to set off at most `toOffset` against the shares. */
  ghost predicate IsSpread(tranches: seq<DepositTranche>, offsets: seq<nat>, toOffset: int) {
    && |offsets| == |tranches| && TotalOf(offsets) <= toOffset
    && forall i :: 0 <= i < |tranches| ==> offsets[i] <= tranches[i].amount
  }

  function ClaimFor(id: string, tranche: DepositTranche, possession: Date, offset: nat): PriorityClaim
    requires tranche.fixedDate.Some?
  {
    PriorityClaim(id, PriorityTenant, Max(tranche.fixedDate.value, possession), tranche.amount - offset)
  }

  /** What is claimed when these amounts are set off; shares without a date claim nothing. */
  function SpreadClaims(id: string, tranches: seq<DepositTranche>, possession: Date, offsets: seq<nat>)
    : seq<PriorityClaim>
    requires |offsets| == |tranches|
  {
    if tranches == [] then []
    else
      var rest := SpreadClaims(id, tranches[1..], possession, offsets[1..]);
      if tranches[0].amount <= offsets[0] || tranches[0].fixedDate.None? then rest
      else [ClaimFor(id, tranches[0], possession, offsets[0])] + rest
  }

  /** The same with empty claims kept. */
  function AllClaims(id: string, tranches: seq<DepositTranche>, possession: Date, offsets: seq<nat>)
    : seq<PriorityClaim>
    requires |offsets| == |tranches|
  {
    if tranches == [] then []
    else
      var rest := AllClaims(id, tranches[1..], possession, offsets[1..]);
      if tranches[0].fixedDate.None? then rest else [ClaimFor(id, tranches[0], possession, offsets[0])] + rest
  }

  /** Dated shares in order, then the others: the order the engine puts them in. */
  ghost predicate InShareOrder(tranches: seq<DepositTranche>) {
    forall i, j :: 0 <= i < j < |tranches| ==>
      if tranches[i].fixedDate.None? then tranches[j].fixedDate.None?
      else tranches[j].fixedDate.Some? ==> tranches[i].fixedDate.value <= tranches[j].fixedDate.value
  }

  lemma {:induction false} UndatedClaimNothing(id: string, tranches: seq<DepositTranche>, possession: Date,
                                               toOffset: int, offsets: seq<nat>)
    requires |offsets| == |tranches| && forall i :: 0 <= i < |tranches| ==> tranches[i].fixedDate.None?
    ensures TrancheClaims(id, tranches, possession, toOffset) == [] == AllClaims(id, tranches, possession, offsets)
  {
    if tranches != [] {
      UndatedClaimNothing(id, tranches[1..], possession, toOffset - Min(toOffset, tranches[0].amount), offsets[1..]);
    }
  }

  lemma {:induction false} AllClaimsFrom(id: string, tranches: seq<DepositTranche>, possession: Date,
                                         offsets: seq<nat>, date: Date)
    requires |offsets| == |tranches|
    requires forall i :: 0 <= i < |tranches| && tranches[i].fixedDate.Some? ==>
               date <= Max(tranches[i].fixedDate.value, possession)
    ensures forall x :: x in AllClaims(id, tranches, possession, offsets) ==> date <= x.priorityDate
  {
    if tranches != [] {
      AllClaimsFrom(id, tranches[1..], possession, offsets[1..], date);
    }
  }

  lemma OwnFromSorted(id: string, date: Date, own: seq<PriorityClaim>, after: seq<PriorityClaim>)
    requires Others(id, after) && forall x :: x in own ==> date <= x.priorityDate
    ensures OwnFrom(id, date, StableSort(own + after, PriorityDateOf))
  {
    var sorted := StableSort(own + after, PriorityDateOf);
    forall i | 0 <= i < |sorted| && sorted[i].claimantId == id
      ensures date <= sorted[i].priorityDate
    {
      SortedClaimsMember(own + after, sorted[i]);
      assert forall x :: x in after ==> x.claimantId != id;
    }
  }

  /** Setting off against the earliest shares first leaves claims that trail those of any other way. */
  lemma {:induction false} EarliestFirstTrails(id: string, tranches: seq<DepositTranche>, possession: Date,
                                               toOffset: int, offsets: seq<nat>, debt: int, after: seq<PriorityClaim>)
    requires InShareOrder(tranches) && Others(id, after) && 0 <= toOffset && 0 <= debt
    requires IsSpread(tranches, offsets, toOffset + debt)
    ensures Trails(id, debt, StableSort(TrancheClaims(id, tranches, possession, toOffset) + after, PriorityDateOf),
                   StableSort(AllClaims(id, tranches, possession, offsets) + after, PriorityDateOf))
    decreases |tranches|, 1
  {
    if tranches == [] || tranches[0].fixedDate.None? {
      UndatedClaimNothing(id, tranches, possession, toOffset, offsets);
      assert [] + after == after;
      OthersSorted(id, after);
      OthersTrail(id, debt, StableSort(after, PriorityDateOf));
    } else {
      FirstShareTrails(id, tranches, possession, toOffset, offsets, debt, after);
    }
  }

  lemma FirstShareTrails(id: string, tranches: seq<DepositTranche>, possession: Date, toOffset: int,
                         offsets: seq<nat>, debt: int, after: seq<PriorityClaim>)
    requires tranches != [] && tranches[0].fixedDate.Some?
    requires InShareOrder(tranches) && Others(id, after) && 0 <= toOffset && 0 <= debt
    requires IsSpread(tranches, offsets, toOffset + debt)
    ensures Trails(id, debt, StableSort(TrancheClaims(id, tranches, possession, toOffset) + after, PriorityDateOf),
                   StableSort(AllClaims(id, tranches, possession, offsets) + after, PriorityDateOf))
    decreases |tranches|, 0
  {
    hide StableSort, Insert, Trails, InShareOrder, Others;
    var offset := Min(toOffset, tranches[0].amount);
    var rest := TrancheClaims(id, tranches[1..], possession, toOffset - offset);
    var rest' := AllClaims(id, tranches[1..], possession, offsets[1..]);
    var x, y := ClaimFor(id, tranches[0], possession, offset), ClaimFor(id, tranches[0], possession, offsets[0]);
    var debt' := debt + offset - offsets[0];
    RestOfShares(tranches, possession);
    EarliestFirstTrails(id, tranches[1..], possession, toOffset - offset, offsets[1..], debt', after);
    var late, early := StableSort(rest + after, PriorityDateOf), StableSort(rest' + after, PriorityDateOf);
    AllClaimsFrom(id, tranches[1..], possession, offsets[1..], y.priorityDate);
    OwnFromSorted(id, y.priorityDate, rest', after);
    StableSortSorts(rest' + after, PriorityDateOf);
    SortPush(y, rest', after);
    if offset < tranches[0].amount {
      TrailsInsertBoth(id, debt, x, y, late, early);
      SortPush(x, rest, after);
    } else {
      TrailsInsertEarly(id, debt, y, late, early);
    }
  }

  lemma RestOfShares(tranches: seq<DepositTranche>, possession: Date)
    requires tranches != [] && tranches[0].fixedDate.Some? && InShareOrder(tranches)
    ensures InShareOrder(tranches[1..])
    ensures forall i :: 0 <= i < |tranches[1..]| && tranches[1..][i].fixedDate.Some? ==>
              Max(tranches[0].fixedDate.value, possession) <= Max(tranches[1..][i].fixedDate.value, possession)
  {
  }

  lemma SortPush(x: PriorityClaim, rest: seq<PriorityClaim>, after: seq<PriorityClaim>)
    ensures StableSort([x] + rest + after, PriorityDateOf)
            == Insert(x, StableSort(rest + after, PriorityDateOf), PriorityDateOf)
  {
    assert ([x] + rest + after)[1..] == rest + after;
  }

  // ---- empty claims make no difference

  lemma {:induction false} EmptyClaimsReduce(id: string, tranches: seq<DepositTranche>, possession: Date,
                                             offsets: seq<nat>)
    requires |offsets| == |tranches| && forall i :: 0 <= i < |tranches| ==> offsets[i] <= tranches[i].amount
    ensures var some := SpreadClaims(id, tranches, possession, offsets);
            var all := AllClaims(id, tranches, possession, offsets);
            && Reduced(PriorityTenant, some, all) && Claimed(some, id) == Claimed(all, id)
            && NonNegativeClaims(some, id)
  {
    if tranches != [] {
      EmptyClaimsReduce(id, tranches[1..], possession, offsets[1..]);
    }
  }

  lemma EmptyClaimsPayNothing(id: string, tranches: seq<DepositTranche>, possession: Date, offsets: seq<nat>,
                              before: seq<PriorityClaim>, after: seq<PriorityClaim>, cash: nat)
    requires |offsets| == |tranches| && forall i :: 0 <= i < |tranches| ==> offsets[i] <= tranches[i].amount
    requires Others(id, before) && Others(id, after)
    ensures var some := SpreadClaims(id, tranches, possession, offsets);
            var all := AllClaims(id, tranches, possession, offsets);
            PaidIn(cash, StableSort(before + (all + after), PriorityDateOf), id)
            <= PaidIn(cash, StableSort(before + (some + after), PriorityDateOf), id)
  {
    hide PaidIn, StableSort;
    var some := SpreadClaims(id, tranches, possession, offsets);
    var all := AllClaims(id, tranches, possession, offsets);
    EmptyClaimsReduce(id, tranches, possession, offsets);
    ReducedRefl(PriorityTenant, before);
    ReducedRefl(PriorityTenant, after);
    hide Reduced, SpreadClaims, AllClaims;
    ReducedAppend(PriorityTenant, some, all, after, after);
    ReducedAppend(PriorityTenant, before, before, some + after, all + after);
    ReducedSort(PriorityTenant, before + (some + after), before + (all + after));
    SameClaimed(id, some, all, before, after);
    NonNegativeSorted(id, before + (some + after));
    ReducedPays(PriorityTenant, cash, cash, StableSort(before + (some + after), PriorityDateOf),
                StableSort(before + (all + after), PriorityDateOf), id);
  }

  lemma SameClaimed(id: string, some: seq<PriorityClaim>, all: seq<PriorityClaim>, before: seq<PriorityClaim>,
                    after: seq<PriorityClaim>)
    requires Claimed(some, id) == Claimed(all, id)
    ensures Claimed(StableSort(before + (some + after), PriorityDateOf), id)
            == Claimed(StableSort(before + (all + after), PriorityDateOf), id)
  {
    hide Claimed, StableSort;
    ClaimedAppend(some, after, id);
    ClaimedAppend(all, after, id);
    ClaimedAppend(before, some + after, id);
    ClaimedAppend(before, all + after, id);
    ClaimedSorted(before + (some + after), id);
    ClaimedSorted(before + (all + after), id);
  }

  lemma NonNegativeSorted(id: string, claims: seq<PriorityClaim>)
    requires NonNegativeClaims(claims, id)
    ensures NonNegativeClaims(StableSort(claims, PriorityDateOf), id)
  {
    var sorted := StableSort(claims, PriorityDateOf);
    forall i | 0 <= i < |sorted| && sorted[i].claimantId == id
      ensures 0 <= sorted[i].remainingClaim
    {
      SortedClaimsMember(claims, sorted[i]);
    }
  }

  // ---- the engine's choice

  lemma {:induction false} DatedInOrder(tranches: seq<DepositTranche>)
    ensures InShareOrder(SortTranches(tranches))
  {
    var dated, undated := StableSort(Filter(tranches, IsDated), FixedDateOf), Filter(tranches, IsUndated);
    StableSortSorts(Filter(tranches, IsDated), FixedDateOf);
    forall i | 0 <= i < |dated|
      ensures dated[i].fixedDate.Some?
    {
      assert dated[i] in multiset(dated);
      FilterMember(tranches, IsDated, dated[i]);
    }
    forall i | 0 <= i < |undated|
      ensures undated[i].fixedDate.None?
    {
      FilterMember(tranches, IsUndated, undated[i]);
    }
  }

  /** Against any claims of others, with any cash, and for any way of setting off as much or less, the tenant gets
      no more from the engine's claims than from the others. */
  lemma EarliestFirstPaysLeast(t: Tenant, possession: Date, toOffset: nat, offsets: seq<nat>,
                               before: seq<PriorityClaim>, after: seq<PriorityClaim>, cash: nat)
    requires IsSpread(TranchesOf(t), offsets, toOffset) && Others(t.id, before) && Others(t.id, after)
    ensures var chosen := TrancheClaims(t.id, TranchesOf(t), possession, toOffset);
            var spread := SpreadClaims(t.id, TranchesOf(t), possession, offsets);
            PaidIn(cash, StableSort(before + (chosen + after), PriorityDateOf), t.id)
            <= PaidIn(cash, StableSort(before + (spread + after), PriorityDateOf), t.id)
  {
    hide PaidIn, StableSort, Trails, SpreadClaims, AllClaims, TrancheClaims, SortTranches, Others;
    var tranches := TranchesOf(t);
    assert InShareOrder(tranches) by {
      if t.depositTranches != [] { DatedInOrder(t.depositTranches); }
    }
    EarliestFirstTrails(t.id, tranches, possession, toOffset, offsets, 0, after);
    var chosen := TrancheClaims(t.id, tranches, possession, toOffset);
    var all := AllClaims(t.id, tranches, possession, offsets);
    TrailsSort(t.id, 0, before, chosen + after, all + after);
    TrailingPaysLess(t.id, 0, cash, cash, StableSort(before + (chosen + after), PriorityDateOf),
                     StableSort(before + (all + after), PriorityDateOf));
    EmptyClaimsPayNothing(t.id, tranches, possession, offsets, before, after, cash);
  }
}

/** Negative claims of others: those before the first share of a tenant or after the last one make no difference to
    how earlier money is best set off. */
module SetOffNeutral {
  import opened Collections
  import opened RightsTypes
  import opened Distribution
  import opened DistributionStages
  import opened SetOff

  // ---- claims that cannot matter are set to nothing

  /** A claim of another before the first share or, if it is negative, not before the last one. */
  predicate IsOutside(id: string, first: Date, last: Date, x: PriorityClaim) {
    x.claimantId != id && (x.priorityDate < first || (last <= x.priorityDate && x.remainingClaim < 0))
  }

  function Neutral(id: string, first: Date, last: Date, x: PriorityClaim): PriorityClaim {
    if IsOutside(id, first, last, x) then x.(remainingClaim := 0) else x
  }

  function AllNeutral(id: string, first: Date, last: Date, claims: seq<PriorityClaim>): seq<PriorityClaim> {
    if claims == [] then [] else [Neutral(id, first, last, claims[0])] + AllNeutral(id, first, last, claims[1..])
  }

  lemma {:induction false} NeutralInsert(id: string, first: Date, last: Date, x: PriorityClaim,
                                         claims: seq<PriorityClaim>)
    ensures AllNeutral(id, first, last, Insert(x, claims, PriorityDateOf))
            == Insert(Neutral(id, first, last, x), AllNeutral(id, first, last, claims), PriorityDateOf)
  {
    if claims == [] || PriorityDateOf(x) <= PriorityDateOf(claims[0]) {
      assert ([x] + claims)[1..] == claims;
    } else {
      NeutralInsert(id, first, last, x, claims[1..]);
      var rest := Insert(x, claims[1..], PriorityDateOf);
      assert ([claims[0]] + rest)[1..] == rest;
    }
  }

  lemma {:induction false} NeutralSort(id: string, first: Date, last: Date, claims: seq<PriorityClaim>)
    ensures AllNeutral(id, first, last, StableSort(claims, PriorityDateOf))
            == StableSort(AllNeutral(id, first, last, claims), PriorityDateOf)
  {
    if claims != [] {
      NeutralSort(id, first, last, claims[1..]);
      NeutralInsert(id, first, last, claims[0], StableSort(claims[1..], PriorityDateOf));
    }
  }

  lemma {:induction false} NeutralAppend(id: string, first: Date, last: Date, s: seq<PriorityClaim>,
                                         t: seq<PriorityClaim>)
    ensures AllNeutral(id, first, last, s + t) == AllNeutral(id, first, last, s) + AllNeutral(id, first, last, t)
  {
    if s == [] {
      assert s + t == t;
    } else {
      assert (s + t)[1..] == s[1..] + t;
      NeutralAppend(id, first, last, s[1..], t);
    }
  }

  /** Claims of this claimant only, dated within the two dates. */
  ghost predicate OwnBetween(id: string, first: Date, last: Date, own: seq<PriorityClaim>) {
    forall i :: 0 <= i < |own| ==> own[i].claimantId == id && first <= own[i].priorityDate <= last
  }

  lemma {:induction false} OwnIsNeutral(id: string, first: Date, last: Date, own: seq<PriorityClaim>)
    requires OwnBetween(id, first, last, own)
    ensures AllNeutral(id, first, last, own) == own
  {
    if own != [] { OwnIsNeutral(id, first, last, own[1..]); }
  }

  /** Claims of others, none of them negative and strictly between the two dates or on the first. */
  ghost predicate NoneBetween(id: string, first: Date, last: Date, claims: seq<PriorityClaim>) {
    forall i :: 0 <= i < |claims| ==>
      && claims[i].claimantId != id
      && (claims[i].remainingClaim < 0 ==> claims[i].priorityDate < first || last <= claims[i].priorityDate)
  }

  lemma {:induction false} NeutralOthers(id: string, first: Date, last: Date, claims: seq<PriorityClaim>)
    requires NoneBetween(id, first, last, claims)
    ensures Others(id, AllNeutral(id, first, last, claims))
  {
    if claims != [] { NeutralOthers(id, first, last, claims[1..]); }
  }

  // ---- where own claims stand

  /** Behind a claim that counts as outside at its end no own claim follows. */
  ghost predicate OwnComeFirst(id: string, last: Date, claims: seq<PriorityClaim>) {
    forall i, j :: 0 <= i < j < |claims| && claims[j].claimantId == id ==>
      !(claims[i].claimantId != id && last <= claims[i].priorityDate && claims[i].remainingClaim < 0)
  }

  lemma {:induction false} InsertSplits(x: PriorityClaim, s: seq<PriorityClaim>) returns (k: nat)
    ensures k <= |s| && Insert(x, s, PriorityDateOf) == s[..k] + [x] + s[k..]
    ensures forall i :: 0 <= i < k ==> s[i].priorityDate < x.priorityDate
  {
    if s == [] || PriorityDateOf(x) <= PriorityDateOf(s[0]) {
      k := 0;
    } else {
      var k' := InsertSplits(x, s[1..]);
      k := k' + 1;
      assert s[..k] == [s[0]] + s[1..][..k'] && s[k..] == s[1..][k'..];
    }
  }

  lemma InsertKeepsFirst(id: string, last: Date, x: PriorityClaim, s: seq<PriorityClaim>)
    requires OwnComeFirst(id, last, s)
    requires if x.claimantId == id then x.priorityDate <= last else 0 <= x.remainingClaim
    ensures OwnComeFirst(id, last, Insert(x, s, PriorityDateOf))
  {
    var k := InsertSplits(x, s);
    var t := s[..k] + [x] + s[k..];
    forall i, j | 0 <= i < j < |t| && t[j].claimantId == id
      ensures !(t[i].claimantId != id && last <= t[i].priorityDate && t[i].remainingClaim < 0)
    {
      assert i < k ==> t[i] == s[i];
      assert i > k ==> t[i] == s[i - 1];
      assert j < k ==> t[j] == s[j];
      assert j > k ==> t[j] == s[j - 1];
    }
  }

  lemma {:induction false} SortKeepsFirst(id: string, last: Date, claims: seq<PriorityClaim>,
                                          after: seq<PriorityClaim>)
    requires forall i :: 0 <= i < |claims| ==>
               if claims[i].claimantId == id then claims[i].priorityDate <= last else 0 <= claims[i].remainingClaim
    requires forall i :: 0 <= i < |after| ==> after[i].claimantId != id
    ensures OwnComeFirst(id, last, StableSort(claims + after, PriorityDateOf))
    decreases |claims|
  {
    if claims == [] {
      assert claims + after == after;
      forall x | x in StableSort(after, PriorityDateOf)
        ensures x.claimantId != id
      {
        SortedClaimsMember(after, x);
      }
    } else {
      assert (claims + after)[1..] == claims[1..] + after;
      SortKeepsFirst(id, last, claims[1..], after);
      InsertKeepsFirst(id, last, claims[0], StableSort(claims[1..] + after, PriorityDateOf));
    }
  }

  // ---- the same payments without them

  /** What is left after the claims dated before `first`. */
  function LeftBefore(cash: int, claims: seq<PriorityClaim>, first: Date): int
    decreases |claims|
  {
    if claims == [] || cash <= 0 || first <= claims[0].priorityDate then cash
    else LeftBefore(cash - Min(cash, claims[0].remainingClaim), claims[1..], first)
  }

  lemma {:induction false} NotPaid(cash: int, claims: seq<PriorityClaim>, id: string)
    requires forall i :: 0 <= i < |claims| ==> claims[i].claimantId != id
    ensures PaidIn(cash, claims, id) == 0
    decreases |claims|
  {
    if claims != [] && 0 < cash {
      NotPaid(cash - Min(cash, claims[0].remainingClaim), claims[1..], id);
    }
  }

  lemma {:induction false} NeutralIsOther(id: string, first: Date, last: Date, claims: seq<PriorityClaim>)
    requires forall i :: 0 <= i < |claims| ==> claims[i].claimantId != id
    ensures forall x :: x in AllNeutral(id, first, last, claims) ==> x.claimantId != id
  {
    if claims != [] { NeutralIsOther(id, first, last, claims[1..]); }
  }

  lemma {:induction false} TailIsNeutral(id: string, first: Date, last: Date, cash: int, claims: seq<PriorityClaim>)
    requires OwnComeFirst(id, last, claims)
    requires forall i :: 0 <= i < |claims| ==> first <= claims[i].priorityDate
    ensures PaidIn(cash, claims, id) == PaidIn(cash, AllNeutral(id, first, last, claims), id)
    decreases |claims|
  {
    if claims != [] && 0 < cash {
      var rest := claims[1..];
      if IsOutside(id, first, last, claims[0]) {
        assert forall i :: 0 <= i < |rest| ==> rest[i] == claims[i + 1] && rest[i].claimantId != id;
        NotPaid(cash, claims, id);
        NeutralIsOther(id, first, last, claims);
        NotPaid(cash, AllNeutral(id, first, last, claims), id);
      } else {
        TailIsNeutral(id, first, last, cash - Min(cash, claims[0].remainingClaim), rest);
      }
    }
  }

  lemma {:induction false} NeutralPaysTheSame(id: string, first: Date, last: Date, cash: int,
                                              claims: seq<PriorityClaim>)
    requires OwnComeFirst(id, last, claims) && SortedBy(claims, PriorityDateOf) && OwnFrom(id, first, claims)
    ensures PaidIn(cash, claims, id)
            == PaidIn(LeftBefore(cash, claims, first), AllNeutral(id, first, last, claims), id)
    decreases |claims|
  {
    if claims == [] || cash <= 0 {
    } else if first <= claims[0].priorityDate {
      TailIsNeutral(id, first, last, cash, claims);
    } else {
      NeutralPaysTheSame(id, first, last, cash - Min(cash, claims[0].remainingClaim), claims[1..]);
    }
  }

  // ---- both lists start alike

  /** The claims dated before `first`. */
  function Prefix(claims: seq<PriorityClaim>, first: Date): seq<PriorityClaim> {
    if claims == [] then []
    else (if claims[0].priorityDate < first then [claims[0]] else []) + Prefix(claims[1..], first)
  }

  lemma {:induction false} LeftOfPrefix(cash: int, claims: seq<PriorityClaim>, first: Date)
    requires SortedBy(claims, PriorityDateOf)
    ensures LeftBefore(cash, claims, first) == LeftBefore(cash, Prefix(claims, first), first)
    decreases |claims|
  {
    if claims == [] {
    } else if claims[0].priorityDate < first {
      assert Prefix(claims, first)[1..] == Prefix(claims[1..], first);
      if 0 < cash { LeftOfPrefix(cash - Min(cash, claims[0].remainingClaim), claims[1..], first); }
    } else {
      NoPrefix(claims, first);
    }
  }

  lemma {:induction false} NoPrefix(claims: seq<PriorityClaim>, first: Date)
    requires forall i :: 0 <= i < |claims| ==> first <= claims[i].priorityDate
    ensures Prefix(claims, first) == []
  {
    if claims != [] { NoPrefix(claims[1..], first); }
  }

  lemma {:induction false} PrefixInsert(x: PriorityClaim, claims: seq<PriorityClaim>, first: Date)
    requires SortedBy(claims, PriorityDateOf)
    ensures Prefix(Insert(x, claims, PriorityDateOf), first)
            == if x.priorityDate < first then Insert(x, Prefix(claims, first), PriorityDateOf)
               else Prefix(claims, first)
  {
    if claims == [] || PriorityDateOf(x) <= PriorityDateOf(claims[0]) {
      assert ([x] + claims)[1..] == claims;
      if claims != [] && first <= claims[0].priorityDate { NoPrefix(claims, first); }
    } else {
      PrefixInsert(x, claims[1..], first);
      var rest := Insert(x, claims[1..], PriorityDateOf);
      assert ([claims[0]] + rest)[1..] == rest;
      assert ([claims[0]] + Prefix(claims[1..], first))[1..] == Prefix(claims[1..], first);
    }
  }

  lemma {:induction false} PrefixSort(claims: seq<PriorityClaim>, first: Date)
    ensures Prefix(StableSort(claims, PriorityDateOf), first) == StableSort(Prefix(claims, first), PriorityDateOf)
  {
    hide SortedBy, Insert;
    if claims != [] {
      var rest := Prefix(claims[1..], first);
      PrefixSort(claims[1..], first);
      StableSortSorts(claims[1..], PriorityDateOf);
      PrefixInsert(claims[0], StableSort(claims[1..], PriorityDateOf), first);
      assert ([claims[0]] + rest)[0] == claims[0] && ([claims[0]] + rest)[1..] == rest && [] + rest == rest;
    }
  }

  lemma {:induction false} PrefixAppend(s: seq<PriorityClaim>, t: seq<PriorityClaim>, first: Date)
    ensures Prefix(s + t, first) == Prefix(s, first) + Prefix(t, first)
  {
    if s == [] {
      assert s + t == t;
    } else {
      assert (s + t)[1..] == s[1..] + t;
      PrefixAppend(s[1..], t, first);
    }
  }

  /** Before the first share it makes no difference how the shares are set off. */
  lemma SameBeforeFirst(id: string, first: Date, last: Date, cash: int, before: seq<PriorityClaim>,
                        own: seq<PriorityClaim>, after: seq<PriorityClaim>)
    requires OwnBetween(id, first, last, own)
    ensures LeftBefore(cash, StableSort(before + (own + after), PriorityDateOf), first)
            == LeftBefore(cash, StableSort(Prefix(before + after, first), PriorityDateOf), first)
  {
    hide StableSort, LeftBefore, Prefix;
    var claims := before + (own + after);
    StableSortSorts(claims, PriorityDateOf);
    LeftOfPrefix(cash, StableSort(claims, PriorityDateOf), first);
    PrefixSort(claims, first);
    PrefixAppend(before, own + after, first);
    PrefixAppend(own, after, first);
    PrefixAppend(before, after, first);
    NoPrefix(own, first);
    assert [] + Prefix(after, first) == Prefix(after, first);
  }

  /** One way to set off, with and without the claims that cannot matter. */
  lemma NeutralList(id: string, first: Date, last: Date, cash: int, before: seq<PriorityClaim>,
                    own: seq<PriorityClaim>, after: seq<PriorityClaim>)
    requires OwnBetween(id, first, last, own) && Others(id, before)
    requires forall i :: 0 <= i < |after| ==> after[i].claimantId != id
    ensures PaidIn(cash, StableSort(before + (own + after), PriorityDateOf), id)
            == PaidIn(LeftBefore(cash, StableSort(Prefix(before + after, first), PriorityDateOf), first),
                      StableSort(AllNeutral(id, first, last, before) + (own + AllNeutral(id, first, last, after)),
                                 PriorityDateOf), id)
  {
    var claims := before + (own + after);
    var sorted := StableSort(claims, PriorityDateOf);
    assert claims == (before + own) + after;
    hide StableSort, LeftBefore, Prefix, PaidIn, OwnComeFirst;
    SortKeepsFirst(id, last, before + own, after);
    StableSortSorts(claims, PriorityDateOf);
    assert OwnFrom(id, first, sorted) by { OwnSortedFrom(id, first, last, before, own, after); }
    NeutralPaysTheSame(id, first, last, cash, sorted);
    SameBeforeFirst(id, first, last, cash, before, own, after);
    NeutralSort(id, first, last, claims);
    NeutralAppend(id, first, last, before, own + after);
    NeutralAppend(id, first, last, own, after);
    OwnIsNeutral(id, first, last, own);
  }

  lemma OwnSortedFrom(id: string, first: Date, last: Date, before: seq<PriorityClaim>, own: seq<PriorityClaim>,
                      after: seq<PriorityClaim>)
    requires OwnBetween(id, first, last, own) && Others(id, before)
    requires forall i :: 0 <= i < |after| ==> after[i].claimantId != id
    ensures OwnFrom(id, first, StableSort(before + (own + after), PriorityDateOf))
  {
    var sorted := StableSort(before + (own + after), PriorityDateOf);
    forall i | 0 <= i < |sorted| && sorted[i].claimantId == id
      ensures first <= sorted[i].priorityDate
    {
      SortedClaimsMember(before + (own + after), sorted[i]);
    }
  }

  lemma {:induction false} LeftNonNegative(cash: int, claims: seq<PriorityClaim>, first: Date)
    requires 0 <= cash
    ensures 0 <= LeftBefore(cash, claims, first)
    decreases |claims|
  {
    if claims != [] && 0 < cash && claims[0].priorityDate < first {
      LeftNonNegative(cash - Min(cash, claims[0].remainingClaim), claims[1..], first);
    }
  }

  // ---- shares and their dates

  function ClaimDate(x: DepositTranche, possession: Date): Date
    requires x.fixedDate.Some?
  {
    Max(x.fixedDate.value, possession)
  }

  /** All claims of the shares are dated within the two dates. */
  ghost predicate SharesWithin(tranches: seq<DepositTranche>, possession: Date, first: Date, last: Date) {
    forall i :: 0 <= i < |tranches| && tranches[i].fixedDate.Some? ==>
      first <= ClaimDate(tranches[i], possession) <= last
  }

  lemma {:induction false} SpreadBetween(id: string, tranches: seq<DepositTranche>, possession: Date,
                                         offsets: seq<nat>, first: Date, last: Date)
    requires |offsets| == |tranches| && SharesWithin(tranches, possession, first, last)
    ensures OwnBetween(id, first, last, SpreadClaims(id, tranches, possession, offsets))
  {
    if tranches != [] { SpreadBetween(id, tranches[1..], possession, offsets[1..], first, last); }
  }

  lemma {:induction false} ChosenBetween(id: string, tranches: seq<DepositTranche>, possession: Date, toOffset: int,
                                         first: Date, last: Date)
    requires SharesWithin(tranches, possession, first, last)
    ensures OwnBetween(id, first, last, TrancheClaims(id, tranches, possession, toOffset))
  {
    if tranches != [] {
      ChosenBetween(id, tranches[1..], possession, toOffset - Min(toOffset, tranches[0].amount), first, last);
    }
  }

  /** Against claims of others none of which is negative between two of the shares, with any cash, and for any way of
      setting off as much or less, the tenant gets no more from the engine's claims than from the others. */
  lemma EarliestFirstPaysLeastBetween(t: Tenant, possession: Date, toOffset: nat, offsets: seq<nat>, first: Date,
                                      last: Date, before: seq<PriorityClaim>, after: seq<PriorityClaim>, cash: nat)
    requires IsSpread(TranchesOf(t), offsets, toOffset) && SharesWithin(TranchesOf(t), possession, first, last)
    requires Others(t.id, before) && NoneBetween(t.id, first, last, after)
    ensures var chosen := TrancheClaims(t.id, TranchesOf(t), possession, toOffset);
            var spread := SpreadClaims(t.id, TranchesOf(t), possession, offsets);
            PaidIn(cash, StableSort(before + (chosen + after), PriorityDateOf), t.id)
            <= PaidIn(cash, StableSort(before + (spread + after), PriorityDateOf), t.id)
  {
    hide PaidIn, StableSort, TranchesOf, TrancheClaims, SpreadClaims, LeftBefore, Prefix, AllNeutral, SharesWithin,
         OwnBetween, IsSpread;
    assert |offsets| == |TranchesOf(t)| by { SpreadLength(TranchesOf(t), offsets, toOffset); }
    var chosen := TrancheClaims(t.id, TranchesOf(t), possession, toOffset);
    var spread := SpreadClaims(t.id, TranchesOf(t), possession, offsets);
    ChosenBetween(t.id, TranchesOf(t), possession, toOffset, first, last);
    SpreadBetween(t.id, TranchesOf(t), possession, offsets, first, last);
    NeutralList(t.id, first, last, cash, before, chosen, after);
    NeutralList(t.id, first, last, cash, before, spread, after);
    assert NoneBetween(t.id, first, last, before);
    NeutralOthers(t.id, first, last, before);
    NeutralOthers(t.id, first, last, after);
    var head := StableSort(Prefix(before + after, first), PriorityDateOf);
    LeftNonNegative(cash, head, first);
    EarliestFirstPaysLeast(t, possession, toOffset, offsets, AllNeutral(t.id, first, last, before),
                           AllNeutral(t.id, first, last, after), LeftBefore(cash, head, first));
  }

  lemma SpreadLength(tranches: seq<DepositTranche>, offsets: seq<nat>, toOffset: int)
    requires IsSpread(tranches, offsets, toOffset)
    ensures |offsets| == |tranches|
  {
  }
}

/** Two claim lists of the last stage, one of which is the other with the claims of one kind of claimant cut
    down or gone: what that does to everybody's payments. */
module ClaimReduction {
  import opened Collections
  import opened Distribution
  import opened DistributionStages

  ghost predicate SmallerClaim(kind: ClaimantKind, x: PriorityClaim, y: PriorityClaim) {
    && x.claimantId == y.claimantId && x.kind == y.kind && x.priorityDate == y.priorityDate
    && if x.kind == kind then 0 <= x.remainingClaim <= y.remainingClaim else x.remainingClaim == y.remainingClaim
  }

  /** `less` is `more` with claims of this kind smaller or left out; all others stand. */
  ghost predicate Reduced(kind: ClaimantKind, less: seq<PriorityClaim>, more: seq<PriorityClaim>)
    decreases |more|
  {
    if more == [] then less == []
    else
      || (less != [] && SmallerClaim(kind, less[0], more[0]) && Reduced(kind, less[1..], more[1..]))
      || (more[0].kind == kind && 0 <= more[0].remainingClaim && Reduced(kind, less, more[1..]))
  }

  /** No claim of this kind is negative. */
  ghost predicate KindNonNegative(kind: ClaimantKind, claims: seq<PriorityClaim>) {
    forall i :: 0 <= i < |claims| && claims[i].kind == kind ==> 0 <= claims[i].remainingClaim
  }

  lemma {:induction false} ReducedRefl(kind: ClaimantKind, s: seq<PriorityClaim>)
    requires KindNonNegative(kind, s)
    ensures Reduced(kind, s, s)
  {
    if s != [] {
      ReducedRefl(kind, s[1..]);
    }
  }

  lemma {:induction false} ReducedAppend(kind: ClaimantKind, less: seq<PriorityClaim>, more: seq<PriorityClaim>,
                                         less': seq<PriorityClaim>, more': seq<PriorityClaim>)
    requires Reduced(kind, less, more) && Reduced(kind, less', more')
    ensures Reduced(kind, less + less', more + more')
    decreases |more|
  {
    if more == [] {
      assert less + less' == less' && more + more' == more';
    } else {
      assert (more + more')[0] == more[0] && (more + more')[1..] == more[1..] + more';
      if less != [] && SmallerClaim(kind, less[0], more[0]) && Reduced(kind, less[1..], more[1..]) {
        assert (less + less')[0] == less[0] && (less + less')[1..] == less[1..] + less';
        ReducedAppend(kind, less[1..], more[1..], less', more');
      } else {
        ReducedAppend(kind, less, more[1..], less', more');
      }
    }
  }

  lemma {:induction false} ReducedStartsLater(kind: ClaimantKind, less: seq<PriorityClaim>, more: seq<PriorityClaim>)
    requires Reduced(kind, less, more) && less != [] && more != [] && SortedBy(more, PriorityDateOf)
    ensures PriorityDateOf(more[0]) <= PriorityDateOf(less[0])
    decreases |more|
  {
    if !(SmallerClaim(kind, less[0], more[0]) && Reduced(kind, less[1..], more[1..])) {
      assert more[1..] != [];
      ReducedStartsLater(kind, less, more[1..]);
      assert more[1..][0] == more[1];
    }
  }

  lemma {:induction false} ReducedInsertBoth(kind: ClaimantKind, x: PriorityClaim, y: PriorityClaim,
                                             less: seq<PriorityClaim>, more: seq<PriorityClaim>)
    requires SmallerClaim(kind, x, y) && Reduced(kind, less, more) && SortedBy(more, PriorityDateOf)
    ensures Reduced(kind, Insert(x, less, PriorityDateOf), Insert(y, more, PriorityDateOf))
    decreases |more|
  {
    if more == [] || PriorityDateOf(y) <= PriorityDateOf(more[0]) {
      if more != [] && less != [] {
        ReducedStartsLater(kind, less, more);
      }
      assert ([x] + less)[1..] == less && ([y] + more)[1..] == more;
    } else {
      var rest := Insert(y, more[1..], PriorityDateOf);
      assert ([more[0]] + rest)[1..] == rest;
      if less != [] && SmallerClaim(kind, less[0], more[0]) && Reduced(kind, less[1..], more[1..]) {
        ReducedInsertBoth(kind, x, y, less[1..], more[1..]);
        var rest' := Insert(x, less[1..], PriorityDateOf);
        assert ([less[0]] + rest')[1..] == rest';
      } else {
        ReducedInsertBoth(kind, x, y, less, more[1..]);
      }
    }
  }

  lemma {:induction false} ReducedInsertMore(kind: ClaimantKind, y: PriorityClaim,
                                             less: seq<PriorityClaim>, more: seq<PriorityClaim>)
    requires y.kind == kind && 0 <= y.remainingClaim && Reduced(kind, less, more)
    ensures Reduced(kind, less, Insert(y, more, PriorityDateOf))
    decreases |more|
  {
    if more == [] || PriorityDateOf(y) <= PriorityDateOf(more[0]) {
      assert ([y] + more)[1..] == more;
    } else {
      var rest := Insert(y, more[1..], PriorityDateOf);
      assert ([more[0]] + rest)[1..] == rest;
      if less != [] && SmallerClaim(kind, less[0], more[0]) && Reduced(kind, less[1..], more[1..]) {
        ReducedInsertMore(kind, y, less[1..], more[1..]);
      } else {
        ReducedInsertMore(kind, y, less, more[1..]);
      }
    }
  }

  /** The stable sort keeps cut-down claims lined up with the originals. */
  lemma {:induction false} ReducedSort(kind: ClaimantKind, less: seq<PriorityClaim>, more: seq<PriorityClaim>)
    requires Reduced(kind, less, more)
    ensures Reduced(kind, StableSort(less, PriorityDateOf), StableSort(more, PriorityDateOf))
    decreases |more|
  {
    if more != [] {
      var sorted, sorted' := StableSort(less, PriorityDateOf), StableSort(more[1..], PriorityDateOf);
      StableSortSorts(more[1..], PriorityDateOf);
      if less != [] && SmallerClaim(kind, less[0], more[0]) && Reduced(kind, less[1..], more[1..]) {
        ReducedSort(kind, less[1..], more[1..]);
        ReducedInsertBoth(kind, less[0], more[0], StableSort(less[1..], PriorityDateOf), sorted');
      } else {
        ReducedSort(kind, less, more[1..]);
        ReducedInsertMore(kind, more[0], sorted, sorted');
      }
    }
  }

  lemma {:induction false} ReducedClaims(kind: ClaimantKind, less: seq<PriorityClaim>, more: seq<PriorityClaim>,
                                         id: string)
    requires Reduced(kind, less, more)
    ensures Claimed(less, id) <= Claimed(more, id)
    ensures (forall i :: 0 <= i < |more| && more[i].claimantId == id ==> more[i].kind != kind) ==>
              Claimed(less, id) == Claimed(more, id)
    decreases |more|
  {
    if more != [] {
      if less != [] && SmallerClaim(kind, less[0], more[0]) && Reduced(kind, less[1..], more[1..]) {
        ReducedClaims(kind, less[1..], more[1..], id);
      } else {
        ReducedClaims(kind, less, more[1..], id);
      }
    }
  }

  /** What the claims leave of `cash`. */
  function LeftOf(cash: int, claims: seq<PriorityClaim>): (left: int)
    ensures 0 <= cash ==> 0 <= left
    decreases |claims|
  {
    if claims == [] || cash <= 0 then cash
    else LeftOf(cash - Min(cash, claims[0].remainingClaim), claims[1..])
  }

  lemma {:induction false} PayClaimsLeaves(b: Book, claims: seq<PriorityClaim>)
    ensures PayClaims(b, claims).remaining == LeftOf(b.remaining, claims)
    decreases |claims|
  {
    if claims != [] && 0 < b.remaining {
      var paid := Min(b.remaining, claims[0].remainingClaim);
      PayClaimsLeaves(b.PayInOrder(claims[0].claimantId, claims[0].kind, paid), claims[1..]);
    }
  }

  /** Out of no less cash the smaller claims leave no less. */
  lemma {:induction false} ReducedLeaves(kind: ClaimantKind, cash: int, cash': int, less: seq<PriorityClaim>,
                                         more: seq<PriorityClaim>)
    requires 0 <= cash' <= cash && Reduced(kind, less, more)
    ensures LeftOf(cash', more) <= LeftOf(cash, less)
    decreases |more|
  {
    if more == [] || cash' == 0 {
    } else {
      var rest := cash' - Min(cash', more[0].remainingClaim);
      if less != [] && SmallerClaim(kind, less[0], more[0]) && Reduced(kind, less[1..], more[1..]) {
        ReducedLeaves(kind, cash - Min(cash, less[0].remainingClaim), rest, less[1..], more[1..]);
      } else {
        ReducedLeaves(kind, cash, rest, less, more[1..]);
      }
    }
  }

  /** Out of no less cash, a claimant whose own claims are not negative loses no more to the smaller claims than
      they shrank, whatever the claims of the others. */
  lemma {:induction false} ReducedPays(kind: ClaimantKind, cash: int, cash': int, less: seq<PriorityClaim>,
                                       more: seq<PriorityClaim>, id: string)
    requires 0 <= cash' <= cash
    requires Reduced(kind, less, more) && NonNegativeClaims(less, id)
    ensures PaidIn(cash', more, id) <= PaidIn(cash, less, id) + Claimed(more, id) - Claimed(less, id)
    decreases |more|
  {
    ReducedClaims(kind, less, more, id);
    PaidWithinClaimed(cash, less, id);
    if more == [] || cash' == 0 {
    } else {
      var rest := cash' - Min(cash', more[0].remainingClaim);
      if less != [] && SmallerClaim(kind, less[0], more[0]) && Reduced(kind, less[1..], more[1..]) {
        ReducedPays(kind, cash - Min(cash, less[0].remainingClaim), rest, less[1..], more[1..], id);
      } else {
        ReducedPays(kind, cash, rest, less, more[1..], id);
      }
    }
  }
}

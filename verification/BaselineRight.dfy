/** The baseline right: the earliest entry that the sale extinguishes together with everything behind it. */
module BaselineRight {
  import opened Collections
  import opened RightsTypes
  import opened TenantPriority
  import opened Distribution

  predicate IsBaselineCandidate(right: RegisteredRight) {
    match right.kind
    case Leasehold(isWholeBuilding, demandedDistribution) => isWholeBuilding && demandedDistribution
    case Mortgage | Seizure | ProvisionalSeizure | CollateralProvisionalRegistration | AuctionCommencement => true
    case _ => false
  }

  /** Five kinds always can be the baseline, a leasehold only over the whole building and with a demand. */
  lemma CandidatesByKind(right: RegisteredRight)
    ensures IsBaselineCandidate(right)
            <==> right.kind in {Mortgage, Seizure, ProvisionalSeizure, CollateralProvisionalRegistration,
                                AuctionCommencement, Leasehold(true, true)}
  {
  }

  /** None where the source throws NoBaselineRightError. */
  function FindBaselineRight(rights: seq<RegisteredRight>): Option<RegisteredRight> {
    if rights == [] then None
    else
      var min, current := FindBaselineRight(rights[..|rights| - 1]), rights[|rights| - 1];
      if !IsBaselineCandidate(current) then min
      else if min.None? || current.receivedDate < min.value.receivedDate then Some(current)
      else min
  }

  /** A candidate, no other is earlier, and of those of one day it is the first listed. */
  ghost predicate IsBaselineAt(rights: seq<RegisteredRight>, i: nat)
    requires i < |rights|
  {
    && IsBaselineCandidate(rights[i])
    && forall j :: 0 <= j < |rights| && IsBaselineCandidate(rights[j]) ==>
         && rights[i].receivedDate <= rights[j].receivedDate
         && (j < i ==> rights[i].receivedDate < rights[j].receivedDate)
  }

  lemma BaselineAtPush(init: seq<RegisteredRight>, last: RegisteredRight, i: nat)
    requires i < |init| && IsBaselineAt(init, i)
    ensures IsBaselineAt(init + [last],
                         if IsBaselineCandidate(last) && last.receivedDate < init[i].receivedDate then |init| else i)
  {
    hide IsBaselineCandidate;
  }

  /** The baseline is the earliest candidate, and missing exactly when there is none. */
  lemma {:induction false} BaselineIsEarliest(rights: seq<RegisteredRight>)
    ensures FindBaselineRight(rights).None? <==> forall r :: r in rights ==> !IsBaselineCandidate(r)
    ensures FindBaselineRight(rights).Some? ==>
              exists i: nat :: i < |rights| && rights[i] == FindBaselineRight(rights).value && IsBaselineAt(rights, i)
  {
    hide IsBaselineCandidate, IsBaselineAt;
    if rights != [] {
      var init, last := rights[..|rights| - 1], rights[|rights| - 1];
      BaselineIsEarliest(init);
      assert rights == init + [last];
      assert forall r :: r in rights <==> r in init || r == last;
      if FindBaselineRight(init).Some? {
        var i: nat :| i < |init| && init[i] == FindBaselineRight(init).value && IsBaselineAt(init, i);
        BaselineAtPush(init, last, i);
      } else if IsBaselineCandidate(last) {
        FirstCandidate(init, last);
      }
    }
  }

  lemma FirstCandidate(init: seq<RegisteredRight>, last: RegisteredRight)
    requires IsBaselineCandidate(last) && forall r :: r in init ==> !IsBaselineCandidate(r)
    ensures IsBaselineAt(init + [last], |init|)
  {
    hide IsBaselineCandidate;
    assert forall j :: 0 <= j < |init| ==> (init + [last])[j] == init[j] && init[j] in init;
  }

  // ---- the cases a request can ask for

  predicate IsDateIfAny(d: Option<Date>) { d.Some? ==> ValidDate(d.value) }

  ghost predicate TenantIsDated(t: Tenant) {
    && ValidDate(t.moveInDate) && IsDateIfAny(t.fixedDate) && IsDateIfAny(t.demandedDistributionDate)
    && forall x :: x in t.depositTranches ==> IsDateIfAny(x.fixedDate)
  }

  /** The baseline date is that of the case's own baseline right, and all dates are calendar dates. */
  ghost predicate IsRequest(c: Case) {
    && FindBaselineRight(c.rights).Some? && c.baselineDate == FindBaselineRight(c.rights).value.receivedDate
    && ValidDate(c.deadline) && IsDateIfAny(c.saleDecisionDate)
    && (forall r :: r in c.rights ==> ValidDate(r.receivedDate))
    && (forall t :: t in c.tenants ==> TenantIsDated(t))
    && forall x :: x in c.taxes ==> ValidDate(x.statutoryDate)
  }

  /** Where the baseline falls when a commencement entry comes first in the list and one other entry may be older. */
  lemma BaselineOfTwo(c: RegisteredRight, r: RegisteredRight)
    requires c.kind.AuctionCommencement? && r.kind.Seizure?
    ensures FindBaselineRight([c]) == Some(c)
    ensures FindBaselineRight([c, r]) == Some(if r.receivedDate < c.receivedDate then r else c)
  {
    assert [c][..0] == [] && [c, r][..1] == [c];
  }
}

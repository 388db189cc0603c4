/** Data contract of the rights-analysis domain. */
module RightsTypes {
  import opened Collections

  /** A calendar date `YYYY-MM-DD` as the number YYYYMMDD: comparing these numbers is comparing
      the strings of the source lexicographically. */
  type Date = int

  datatype RegionTier = Seoul | Overconcentration | Metro | Other

  /** The two flags of a leasehold are what decides whether it can be the baseline. */
  datatype RightKind =
    | Mortgage
    | Seizure
    | ProvisionalSeizure
    | CollateralProvisionalRegistration
    | AuctionCommencement
    | Leasehold(isWholeBuilding: bool, demandedDistribution: bool)
    | Superficies
    | Easement
    | ProvisionalRegistration
    | ProvisionalDisposition

  /** `amount` is None when it is absent; it has no lower bound in the request contract. */
  datatype RegisteredRight =
    RegisteredRight(id: string, kind: RightKind, receivedDate: Date, amount: Option<int>)

  datatype TaxClaim =
    TaxClaim(id: string, isPropertyTax: bool, statutoryDate: Date, amount: Option<nat>)

  datatype DepositTranche = DepositTranche(amount: nat, fixedDate: Option<Date>)

  /** An absent tranche list and an empty one mean the same, so `depositTranches` is a sequence. */
  datatype Tenant = Tenant(
    id: string,
    moveInDate: Date,
    fixedDate: Option<Date>,
    depositAmount: nat,
    depositTranches: seq<DepositTranche>,
    demandedDistribution: bool,
    demandedDistributionDate: Option<Date>)

  function TrancheTotal(tranches: seq<DepositTranche>): nat {
    if tranches == [] then 0 else tranches[0].amount + TrancheTotal(tranches[1..])
  }
}

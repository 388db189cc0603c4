# Auction analysis: a verified model

This project models the stateful and arithmetic core of a court-auction service in Dafny 4.11 and proves what that core is for. `dafny verify dfyconfig.toml` checks everything.

**Expected distribution** (`RightsTypes`, `TenantPriority`, `SmallDeposit`, `Distribution`, `DistributionStages`, `DistributionLaws`, `SmallDepositLaws`, `Waterfall`, `DistributionRelief`, `ClaimReduction`, `SetOff`, `SetOffNeutral`, `SetOffRuns`, `UnknownTaxes`, `AmpleProceeds`, `BaselineRight`, `DistributionEngine`). Sale proceeds run through three stages: small deposits pro rata under half of the proceeds, property taxes with relief for tenants of an earlier fixed date, and everything else in date order with deposits split into dated shares. `Distribution` specifies a run as functions on a `Book` (what is left, the three maps, the entry log); `DistributionEngine` is the source's loops and is proved to compute exactly that. `DistributionStages` and `DistributionLaws` prove conservation, the ceiling, no overpayment and strict priority; `SmallDepositLaws` what stage 1 pays in the words of the decrees, `Waterfall` in which order the later stages pay and when there is no answer; `DistributionRelief` compares the same case with and without the relief of 2023-04-01, `UnknownTaxes` a case with tax amounts unknown and known, and `SetOff`, `SetOffNeutral` and `SetOffRuns` the engine's way of setting earlier money off with all others; `ClaimReduction` is what their last stages share. `AmpleProceeds` pays everybody out of proceeds that cover everything. `BaselineRight` finds the baseline right and says which cases a request can ask for; every case that shows a condition to be needed is one of those.

**What the notice alone decides** (`NoticeAssumption`, `NoticeTotals`, `NoticeDecided`, `NoticeMerge`, `NoticeCells`, `RowBands`, `NoticePipeline`). The court notice gives a verdict per tenant and a lower bound for the sum the buyer takes over, before anybody has read the registry. Both are proved against the full distribution, for every registry, price and completion of unread values, with the exact condition on which they hold, and conversely what all cases agree on is decided (`NoticeDecided`); and for the rows as they come out of the table parser and the merge of sources.

**Notifications** (`Grouping`, `DeliveryProtocol`, `Dispatcher`, `OverlappingRuns`). `DeliveryProtocol` is the claim, send, release protocol as a state machine over any interleaving of processes, with arbitrary replies and exceptions. `Dispatcher` is the class itself; its methods are shown to be runs of the protocol and to move the cursor only past handled changes, over any sequence of runs. `OverlappingRuns` puts the cursor on top of the protocol, for runs of several processes at once.

**Sessions and login** (`RefreshTokens`, `Sessions`, `MobileExchange`, `Pkce`). Refresh-token rotation with grace period and family revocation, the life of one token over any run, one-time exchange codes whose records are swept, and the client's base64url encoder with its PKCE values (RFC 4648 section 5, RFC 7636 sections 4.1, 4.2 and 4.6).

**Bid arithmetic and collection** (`Burden`, `BurdenTerms`, `RegistryCache`, `NoticeStage`). Cost ranges and bid scenarios, the single-flight cache in front of paid registry lookups, and the daily notice stage with its budget and streak stop.

`Collections` holds sums, filtering and the stable sort that `Array.prototype.sort` and Python's `sorted` promise.

## Where the code does not do what it says

* `classifyNoticeAssumption` answers `ASSUMED_FULL` for a demand that was read as made but whose date was not. If the date turns out to be timely the buyer may take over nothing. `FullVerdictExactlyWhen` says exactly when the verdict holds, `NoticeTotalExactlyWhen` exactly when the sum built on it does; `MergedDemandIsDated` shows that parsed and merged rows never get there.
* The assumed amounts of a run with unknown tax amounts are called lower bounds. Under the relief a property tax that becomes known can pay a tenant of an earlier fixed date and lower them (`ExposedIsLowered`). `UnknownTaxesBound` and `LowerBoundExactlyWhen` say when they are lower bounds, for any mix of unknown taxes and fixed dates.
* Earlier money is set off against the earliest shares so that the amount taken over is never made to look smaller. A right of negative amount between two shares makes it smaller (`NegativeRightBetween`); `SetOffExactlyWhen` gives the exact condition.
* A mobile exchange code can be accepted twice when the two clock readings of one `consume` fall on either side of its expiry (`AcceptedAgainExactlyWhen`, `StraddlingReplay`). With one reading per call it cannot (`AtMostOncePerCode`).
* The batch limit of 500 changes can cut inside rows observed at one time (`LimitPassesOver`); no later run reads the rows cut off (`PassedOverForGood`). `NothingPassedExactlyWhen` gives the exact condition on the rows a run finds.
* The branch of `processScheduleChanges` that would write the watermark after a full batch cannot be reached.
* A device handed from one subscriber to another is notified twice for one key (`HandedOverDeviceIsNotifiedTwice`); claims are kept per user. `OncePerDeviceExactlyWhen` says which listings of devices rule that out.
* `addOneDay` of 9999-12-31 prints a year of six digits, which sorts before every date (`AddOneDayOfLastDate`).
* A refused claim counts as delivered. When runs overlap, the one that was refused can move the cursor past a change whose holder then fails: nobody is told, and no later run reads the change (`OverlapLosesAChange`). `RefusedClaimIsRightExactlyWhen` says when the refusal may be trusted. Overlapping runs can also move the cursor back (`CursorMovesBack`), so that changes are read again.
* `invalidate` does not reach a fetch under way, whose value is cached after it (`InvalidationMissesTheFlight`). `InvalidationHoldsExactlyWhen` and `NothingOldIsKeptExactlyWhen` say when no later answer, and no later cached value, is from before it.

## Conventions

Amounts are whole won. Rates, ratios and shares are exact numbers; floors and roundings are the source's. Dates are numbers YYYYMMDD, which compare as the source's strings do; where it matters that a number is a calendar date (`ValidDate`), a contract says so, as the request validation and the date columns do. Identifiers are distinct where `DistinctIds` is required, since the engine's maps are keyed by bare id; without it the model follows the maps, so that of tenants with one id the last analysis counts for all. Replies of the push service and of the court, clock readings, random values, faults of the database and the outcome of fetches are parameters or left open.

## Model

| member | source | states |
|---|---|---|
| TenantPriority.AddOneDayIsSuccessor | apps/api/src/rights-analysis/domain/tenant-priority.ts:17-21 | the next day is the least later calendar date, month ends and leap years included |
| TenantPriority.AddOneDayOfLastDate | apps/api/src/rights-analysis/domain/tenant-priority.ts:17-21 | the successor of 9999-12-31 sorts before every date |
| TenantPriority.CalendarDates | apps/api/src/rights-analysis/domain/tenant-priority.ts:17-21 | how many days a month has, by the Gregorian rule |
| TenantPriority.PriorityExactlyWhen | apps/api/src/rights-analysis/domain/tenant-priority.ts:23-42 | opposing power exactly when moved in before the day of the baseline right, with that one exception |
| TenantPriority.DemandExactlyWhen | apps/api/src/rights-analysis/domain/tenant-priority.ts:23-42 | a demand counts exactly when made, with a date, by the deadline |
| SmallDeposit.LatestRuleIsLatest | apps/api/src/rights-analysis/domain/small-deposit-tenant-table.ts:101-113 | the decree found is in force and no later one is; none is found exactly when none is in force |
| SmallDeposit.ReferenceDateIsEarliest | apps/api/src/rights-analysis/domain/small-deposit-tenant.ts:27-39 | the reference date is the earliest collateral's, else the first commencement's, and missing exactly when there is neither |
| Collections.StableSortSorts | apps/api/src/rights-analysis/domain/distribution.ts:164-166 | sorting by date orders, loses nothing and invents nothing |
| Collections.StableSortStable | apps/api/src/rights-analysis/domain/distribution.ts:264 | claims of one date stay in the order they were collected in |
| DistributionEngine.SmallDepositStage | apps/api/src/rights-analysis/domain/distribution.ts:135-155 | the pro-rata loop leaves the money, map and log of stage 1 |
| DistributionEngine.ReliefLoop | apps/api/src/rights-analysis/domain/distribution.ts:174-195 | the diversion of one tax to earlier tenants, with its breaks and skips |
| DistributionEngine.PropertyTaxStage | apps/api/src/rights-analysis/domain/distribution.ts:160-202 | the property-tax loop leaves the money, map and log of stage 2 |
| DistributionEngine.TenantShares | apps/api/src/rights-analysis/domain/distribution.ts:215-236 | the set-off loop over the shares of one deposit |
| DistributionEngine.CollectTenantClaims | apps/api/src/rights-analysis/domain/distribution.ts:205-237 | claims of all participants, or the first mismatch of shares and deposit as an error |
| DistributionEngine.PushRightClaims | apps/api/src/rights-analysis/domain/distribution.ts:239-249 | registered rights with an amount become claims |
| DistributionEngine.PushTaxClaims | apps/api/src/rights-analysis/domain/distribution.ts:252-262 | ordinary taxes with an amount become claims |
| DistributionEngine.PriorityStage | apps/api/src/rights-analysis/domain/distribution.ts:266-275 | the payment loop leaves the money, map and log of stage 3 |
| DistributionEngine.TenantOutcomes | apps/api/src/rights-analysis/domain/distribution.ts:277-289 | what each tenant received and what the buyer takes over |
| DistributionEngine.ComputeDistribution | apps/api/src/rights-analysis/domain/distribution.ts:106-299 | the engine's loops compute the specified run, errors and tenants that share an id included |
| DistributionStages.OwnPriority | apps/api/src/rights-analysis/domain/distribution.ts:124-129 | with distinct ids every tenant is judged by its own analysis |
| DistributionStages.StatutoryCeiling | apps/api/src/rights-analysis/domain/distribution.ts:141-155 | stage 1 stays under half the proceeds, pays everyone in full when it can, everyone in one proportion when it cannot, and loses at most a won per claimant |
| SmallDepositLaws.SmallDepositsByDecree | apps/api/src/rights-analysis/domain/small-deposit-tenant.ts:41-60 | in every run, by the latest decree in force: no small-deposit entry above the deposit cap of the region, otherwise the deposit up to the repayment cap, cut in one proportion when half the proceeds are not enough |
| SmallDepositLaws.DecreesOnlyRise | apps/api/src/rights-analysis/domain/small-deposit-tenant-table.ts:30-93 | decrees are listed by date, no cap falls, and what is put first is within what makes a small deposit |
| Waterfall.ReliefIsWaterfall | apps/api/src/rights-analysis/domain/distribution.ts:174-195 | relief goes to tenants of earlier fixed dates in listed order, each as far as those before leave anything |
| Waterfall.PropertyTaxesInDateOrder | apps/api/src/rights-analysis/domain/distribution.ts:164-202 | without relief each known property tax gets what those of earlier date leave |
| Waterfall.RightsClaimTheirAmounts | apps/api/src/rights-analysis/domain/distribution.ts:239-249 | rights with an amount claim it by the day they were received, in registry order |
| Waterfall.TaxesClaimTheirAmounts | apps/api/src/rights-analysis/domain/distribution.ts:252-262 | known ordinary taxes claim their amount by statutory date |
| Waterfall.TiesOfOneDay | apps/api/src/rights-analysis/domain/distribution.ts:204-264 | on one day tenants come before rights and rights before taxes |
| Waterfall.FailsExactlyWhen | apps/api/src/rights-analysis/domain/distribution.ts:76-92 | when a distribution has no answer, and which error it is |
| DistributionStages.PayTaxesTotals | apps/api/src/rights-analysis/domain/distribution.ts:157-202 | stage 2 hands out exactly the known property taxes or all there is |
| DistributionStages.ReliefExhaustsEarlierTenants | apps/api/src/rights-analysis/domain/distribution.ts:174-195 | after the relief of a tax that may still claim something, every earlier tenant has the whole deposit |
| DistributionStages.TranchesCoverDeposit | apps/api/src/rights-analysis/domain/distribution.ts:86-104 | splitting and sorting a deposit keeps its sum |
| DistributionStages.TrancheClaimsWithin | apps/api/src/rights-analysis/domain/distribution.ts:212-236 | claims of the shares plus what was set off stay within the deposit |
| DistributionLaws.Conservation | apps/api/src/rights-analysis/domain/distribution.ts:119-298 | entries plus the remainder are what came in, and the remainder is never negative |
| DistributionLaws.NoOverpayment | apps/api/src/rights-analysis/domain/distribution.ts:277-289 | no tenant gets more than the deposit; the total is the sum of the tenant's entries; with opposing power total plus assumed is the deposit |
| DistributionLaws.BookTwoRemaining | apps/api/src/rights-analysis/domain/distribution.ts:157-202 | what stage 2 leaves is stage 1's remainder less all known property taxes, or nothing |
| DistributionLaws.ReliefPutsEarlierTenantsFirst | apps/api/src/rights-analysis/domain/distribution.ts:157-202 | under relief a property tax is paid only when every tenant of an earlier fixed date has everything back |
| DistributionLaws.StrictDateOrder | apps/api/src/rights-analysis/domain/distribution.ts:204-275 | stage 3 pays a full prefix in date order, at most one part, then nothing; money left means all were paid |
| DistributionRelief.ReliefKeepsTheRemainder | apps/api/src/rights-analysis/domain/distribution.ts:157-202 | the same is left after stage 2 with and without relief |
| DistributionRelief.ReliefHarmsOnlyPropertyTaxes | apps/api/src/rights-analysis/domain/distribution.ts:157-289 | relief raises no property tax, lowers no tenant and no other creditor but a right of negative amount, and never raises what the buyer takes over |
| DistributionRelief.NegativeRightMayLose | apps/api/src/rights-analysis/domain/distribution.ts:266-275 | a request in which a right of negative amount gets less with relief |
| ClaimReduction.ReducedPays | apps/api/src/rights-analysis/domain/distribution.ts:264-275 | smaller claims and more cash cost a claimant at most what its own claims shrank, whatever the others claim |
| ClaimReduction.ReducedLeaves | apps/api/src/rights-analysis/domain/distribution.ts:264-275 | and leave no less |
| SetOff.EarliestFirstPaysLeast | apps/api/src/rights-analysis/domain/distribution.ts:212-236 | against any claims of others that are not negative, and any cash, setting off the earliest shares first pays the tenant least |
| SetOffNeutral.EarliestFirstPaysLeastBetween | apps/api/src/rights-analysis/domain/distribution.ts:212-275 | and so it does against negative claims too, unless one stands between two of the shares |
| SetOffRuns.SetOffNeverUnderstates | apps/api/src/rights-analysis/domain/distribution.ts:204-275 | in every run without a negative right between the tenant's shares, any other way to set off would have paid the tenant no less in stage 3 |
| SetOffRuns.NegativeRightBetween | apps/api/src/rights-analysis/domain/distribution.ts:204-275 | a request with such a right, for which another way would have paid less |
| SetOffRuns.SetOffExactlyWhen | apps/api/src/rights-analysis/domain/distribution.ts:212-214 | for negative rights and shares of any dates: exactly when no such right can stand between two such shares |
| UnknownTaxes.PayTaxesPoorer | apps/api/src/rights-analysis/domain/distribution.ts:168-202 | out of less cash stage 2 pays the same until the money is gone, and never anybody more |
| UnknownTaxes.UnknownTaxesBound | apps/api/src/rights-analysis/domain/distribution.ts:40-44 | completing unknown amounts lowers no assumed amount unless the relief reaches an unknown property tax |
| UnknownTaxes.ExposedIsLowered | apps/api/src/rights-analysis/domain/distribution.ts:40-44 | where it does, a request and a completion that lowers one |
| UnknownTaxes.LowerBoundExactlyWhen | apps/api/src/rights-analysis/domain/distribution.ts:40-44 | for any mix of kinds and dates of unknown taxes and of fixed dates, over all requests: exactly when the relief reaches none of those taxes |
| UnknownTaxes.CountsTheUnknown | apps/api/src/rights-analysis/domain/distribution.ts:297 | none is counted as unknown exactly when nothing is left to complete |
| NoticeAssumption.VerdictHolds | apps/api/src/rights-analysis/domain/notice-assumption.ts:45-113 | every part of a verdict is what the engine finds for every case that fits the notice; only a full verdict and the demand need the date of the demand |
| NoticeAssumption.FullVerdictExactlyWhen | apps/api/src/rights-analysis/domain/notice-assumption.ts:45-113 | a full verdict holds for all requests that fit exactly when no demand lacks its date or the deposit is zero |
| NoticeAssumption.AssumedTotalOf | apps/api/src/auction-items/affordability.ts:37-53 | the loop computes the sum and the lower-bound mark |
| NoticeTotals.NoticeTotalIsSound | apps/api/src/auction-items/affordability.ts:33-53 | the sum never exceeds the engine's and equals it when not marked as a lower bound |
| NoticeTotals.NoticeTotalExactlyWhen | apps/api/src/auction-items/affordability.ts:33-53 | it does so for all requests that fit exactly when no more is misread than is certain and uncounted |
| NoticeDecided.SaysWhatWasRead | apps/api/src/rights-analysis/domain/notice-assumption.ts:45-113 | which parts of a verdict are given, from what was read |
| NoticeDecided.NotAssumedExactlyWhen | apps/api/src/rights-analysis/domain/notice-assumption.ts:84-92 | with move-in and baseline read: nothing assumed is the verdict exactly when every request that fits assumes nothing |
| NoticeDecided.AssumedFullExactlyWhen | apps/api/src/rights-analysis/domain/notice-assumption.ts:94-103 | with the demand read as well: all of it is the verdict exactly when every request that fits assumes all of it |
| NoticeDecided.UnmarkedExactlyWhen | apps/api/src/auction-items/affordability.ts:33-53 | with everything read: the sum is not marked as a lower bound exactly when all requests that fit agree on it |
| AmpleProceeds.AmplePaysAll | apps/api/src/rights-analysis/domain/distribution.ts:106-289 | proceeds that cover all deposits, rights and known taxes pay every participant with fixed dates in full, with or without relief, and nothing is assumed |
| AmpleProceeds.NoProceedsPayNobody | apps/api/src/rights-analysis/domain/distribution.ts:106-289 | without proceeds nobody gets anything and whoever can oppose keeps the whole deposit |
| AmpleProceeds.StageOneByTenant | apps/api/src/rights-analysis/domain/distribution.ts:135-155 | what stage 1 took out of the cash is what the participants have got |
| BaselineRight.BaselineIsEarliest | apps/api/src/rights-analysis/domain/baseline-right.ts:26-49 | the baseline right is the earliest candidate, of those of one day the first listed, and missing exactly when there is none |
| BaselineRight.CandidatesByKind | apps/api/src/rights-analysis/domain/baseline-right.ts:18-36 | which entries can be the baseline |
| NoticeAssumption.ServiceAgreesWithEngine | apps/api/src/rights-analysis/service/rights-analysis.service.ts:128-163 | the service's classification gives the engine's amounts |
| NoticeAssumption.OpenWithoutPrice | apps/api/src/rights-analysis/service/rights-analysis.service.ts:128-163 | without a price exactly those are left open whose amount the price decides |
| NoticeMerge.CollectRows | apps/api/src/auction-items/notice-tenant-merge.ts:39-84 | the map holds, for every person, the best value so far of each field |
| NoticeMerge.MergeNoticeTenants | apps/api/src/auction-items/notice-tenant-merge.ts:37-96 | one entry per person mentioned, in ascending order, with the merged fields |
| NoticeMerge.SlotIsMostTrusted | apps/api/src/auction-items/notice-tenant-merge.ts:60-80 | a merged value is the first one among the rows of the most trusted source that has one: report before registry before survey before the rest |
| NoticeMerge.LoneRowIsKept | apps/api/src/auction-items/notice-tenant-merge.ts:37-58 | a person with one row comes out with that row's values, each in its field |
| NoticeMerge.SourcesInOrder | apps/api/src/auction-items/notice-tenant-merge.ts:60-63 | sources are listed as they first turn up |
| NoticeMerge.OrderDoesNotMatter | apps/api/src/auction-items/notice-tenant-merge.ts:60-80 | any permutation of the rows gives the same value when the most trusted values agree |
| NoticeMerge.SourcesAreListedOnce | apps/api/src/auction-items/notice-tenant-merge.ts:37-96 | the sources of a person's rows are listed, each once |
| NoticeCells.ParseDepositTranches | tools/collector/src/collector/notice_tenant_parser.py:573-621 | shares come back exactly for increasing cumulative totals, and rebuild them with their dates |
| NoticeCells.SharesReadBack | tools/collector/src/collector/notice_tenant_parser.py:573-621 | shares written as numbered running totals are read back as they are |
| NoticeCells.IncreaseReadsBack | tools/collector/src/collector/notice_tenant_parser.py:573-621 | so is one increase in the other way of writing, first share first; other numbers of dates are not read |
| NoticeCells.DepositIsCurrentTotal | tools/collector/src/collector/notice_tenant_parser.py:534-570 | the deposit is the last numbered amount or else the first one, within the cap |
| NoticeCells.DemandIsReadExactlyWhen | tools/collector/src/collector/notice_tenant_parser.py:646-664 | made exactly with a date, not made exactly where the court says so |
| NoticeCells.SharesAgreeExactlyWhen | tools/collector/src/collector/notice_tenant_parser.py:534-621 | exactly when shares and deposit of one cell agree |
| NoticeCells.DocumentedCellsMatch | tools/collector/src/collector/notice_tenant_parser.py:534-621 | both documented ways of writing a cell agree, so the engine accepts the shares |
| NoticePipeline.MergedDemandIsDated | tools/collector/src/collector/notice_tenant_parser.py:646-664 | a demand merged from parsed rows always has a date |
| NoticePipeline.AssumedDeposits | apps/api/src/auction-items/auction-items.repository.ts:238-265 | from the rows of a notice to its sum: for every case that fits, at most what the engine makes the buyer take over |
| NoticePipeline.LoneRowIsClassified | apps/api/src/auction-items/auction-items.repository.ts:238-265 | a person with one row is classified by that row's four fields, each in its place |
| NoticePipeline.GroupByNotice | apps/api/src/auction-items/auction-items.repository.ts:231-236 | the map holds each notice's rows in stored order |
| NoticePipeline.RowsOfInOrder | apps/api/src/auction-items/auction-items.repository.ts:231-236 | namely all of its rows and no others, in ascending position |
| NoticePipeline.CollectMetas | apps/api/src/auction-items/auction-items.repository.ts:207-211 | the map holds the last entry of every notice; items without a notice are dropped |
| NoticePipeline.LoadAssumedDeposits | apps/api/src/auction-items/auction-items.repository.ts:203-268 | one such sum for every notice of a listed item and none for others |
| RowBands.MergeAnchors | tools/collector/src/collector/notice_tenant_parser.py:432-437 | kept anchors are original, further apart than the tolerance, and stand for all |
| RowBands.FillBands | tools/collector/src/collector/notice_tenant_parser.py:365-376 | bands are stacked without gap or overlap and each bucket holds exactly the fragments in its band |
| RowBands.RowsInRegion | tools/collector/src/collector/notice_tenant_parser.py:348-383 | the rows are the buckets of the region's fragments that make a tenant row, in order |
| RowBands.AnchorInsideBand | tools/collector/src/collector/notice_tenant_parser.py:365-376 | each anchor lies strictly inside its own band |
| RowBands.FragmentInOneRow | tools/collector/src/collector/notice_tenant_parser.py:365-376 | no fragment lands in two rows, and one on an anchor lands in its row |
| RowBands.BandCentredOnAnchor | tools/collector/src/collector/notice_tenant_parser.py:365-376 | a band reaches as far below its anchor as above, or halfway to the next |
| RowBands.NoFragmentIsLost | tools/collector/src/collector/notice_tenant_parser.py:348-376 | every fragment of the table above the foot of the last band is in the bucket of a row |
| Grouping.GroupBy | apps/api/src/notifications/notification-dispatcher.ts:61-69 | one group per key in order of first appearance, each complete and in order |
| Grouping.KeysInOrder | apps/api/src/notifications/notification-dispatcher.ts:61-69 | groups stand where their key was first seen |
| Grouping.MembersInOrder | apps/api/src/notifications/notification-dispatcher.ts:61-69 | and hold all elements of the key in their order |
| DeliveryProtocol.RunKeepsInv | apps/api/src/notifications/notification-dispatcher.ts:185-243 | every interleaving of claims, replies and endings keeps table, jobs and log consistent |
| DeliveryProtocol.AtMostOnce | apps/api/src/notifications/notifications.repository.ts:185-207 | a device is reported sent at most once per user and key; records at rest are exactly the reported deliveries |
| DeliveryProtocol.RecordRemainsIffReported | apps/api/src/notifications/notification-dispatcher.ts:213-233 | when a send ends, normally or not, its record remains exactly when a device was reached |
| DeliveryProtocol.AtMostOncePerDevice | apps/api/src/notifications/notification-dispatcher.ts:185-243 | once per key, while no device is listed for two users under that key |
| DeliveryProtocol.OncePerDeviceExactlyWhen | apps/api/src/notifications/notification-dispatcher.ts:185-243 | all runs are free of repeats exactly when no device is ever listed for two users under one key |
| DeliveryProtocol.HandedOverDeviceIsNotifiedTwice | apps/api/src/notifications/notification-dispatcher.ts:198-208 | a device that changes owner can be reached twice |
| Dispatcher.NotificationDispatcher.ClaimDelivery | apps/api/src/notifications/notifications.repository.ts:185-199 | a claim succeeds exactly when there was no record, and leaves one |
| Dispatcher.NotificationDispatcher.ReleaseDelivery | apps/api/src/notifications/notifications.repository.ts:202-207 | a release removes exactly that record |
| Dispatcher.NotificationDispatcher.SendToUser | apps/api/src/notifications/notification-dispatcher.ts:213-240 | one claimed send is a run of the protocol; the record stays exactly when a device was reached; of the devices exactly those answered unregistered are gone |
| Dispatcher.DeadExactlyWhen | apps/api/src/notifications/notification-dispatcher.ts:217-222 | which devices these are |
| Dispatcher.NotificationDispatcher.DeliverToUser | apps/api/src/notifications/notification-dispatcher.ts:201-240 | claim, send and release of one user; a taken claim is left alone |
| Dispatcher.NotificationDispatcher.Deliver | apps/api/src/notifications/notification-dispatcher.ts:185-243 | every subscriber is tried with all devices; all delivered exactly when nothing failed or threw and every subscriber has a record |
| Dispatcher.NotificationDispatcher.HandleGroup | apps/api/src/notifications/notification-dispatcher.ts:117-127 | one item's changes are announced for the latest of them, to its subscribers only, or not at all |
| Dispatcher.NotificationDispatcher.HandleGroups | apps/api/src/notifications/notification-dispatcher.ts:112-128 | without a block every group is recorded and the checkpoint is the latest change of the last one |
| Dispatcher.NotificationDispatcher.ProcessScheduleChanges | apps/api/src/notifications/notification-dispatcher.ts:98-134 | the cursor never moves back, stays when anything has to be retried, and otherwise passes only handled changes; every change of the batch is tried |
| Dispatcher.WatchedMember | apps/api/src/notifications/notifications.repository.ts:60-77 | what a run may read: the changes after the cursor up to the watermark of items that somebody watches |
| Dispatcher.NothingPassedExactlyWhen | apps/api/src/notifications/notifications.repository.ts:69-77 | a run passes over a change exactly when the limit cuts inside the rows of one time and the item that turned up last has one before the cut |
| Dispatcher.CheckpointIsLatestOfLastItem | apps/api/src/notifications/notification-dispatcher.ts:112-128 | the checkpoint is the time of the latest change of the item that turned up last |
| Dispatcher.LimitPassesOver | apps/api/src/notifications/notifications.repository.ts:69-77 | a schedule on which it does: 501 items with one change each, of which only the last two share a time |
| Dispatcher.PassedOverForGood | apps/api/src/notifications/notification-dispatcher.ts:98-134 | what the cursor has passed is read by no later run |
| Dispatcher.NotificationDispatcher.ProcessReminders | apps/api/src/notifications/notification-dispatcher.ts:160-182 | every due reminder is tried on every subscribed device, and nothing else is recorded |
| Dispatcher.NotificationDispatcher.RunOnce | apps/api/src/notifications/notification-dispatcher.ts:78-96 | a scheduled run is a run of the protocol; of the devices exactly those answered unregistered are gone; quiet hours change nothing; the cursor moves only past handled changes; it is called aborted or thrown exactly by what an answer threw |
| OverlappingRuns.RunsKeepInv | apps/api/src/notifications/notification-dispatcher.ts:98-243 | however runs overlap, the table stays consistent and a run settles only what its batch asks for |
| OverlappingRuns.TableFollowsProtocol | apps/api/src/notifications/notification-dispatcher.ts:185-243 | the table of any overlapping runs is that of a run of the protocol |
| OverlappingRuns.RefusedClaimIsRightExactlyWhen | apps/api/src/notifications/notification-dispatcher.ts:201-211 | counting a refused claim as delivered keeps the record of every passed change, in all that may follow, exactly when the holder has already reached a device |
| OverlappingRuns.RefusedClaimLoses | apps/api/src/notifications/notification-dispatcher.ts:201-233 | from every other state the run goes on to pass the change and leave no record |
| OverlappingRuns.NothingLostWithoutDoubt | apps/api/src/notifications/notification-dispatcher.ts:98-134 | while refusals are of delivered notifications only, every passed change keeps its records for ever |
| OverlappingRuns.PassedIsNotReadAgain | apps/api/src/notifications/notification-dispatcher.ts:98-134 | once the cursor and all that may still be written to it are past a change, no later run reads it |
| OverlappingRuns.OverlapLosesAChange | apps/api/src/notifications/notification-dispatcher.ts:98-243 | two overlapping runs that lose a change for good |
| OverlappingRuns.CursorMovesBack | apps/api/src/notifications/notifications.repository.ts:234-242 | two overlapping runs that move the cursor back |
| RefreshTokens.RunKeepsInv | apps/api/src/auth/auth.service.ts:156-256 | every run of operations keeps the token table consistent |
| RefreshTokens.OneActivePerFamily | apps/api/src/auth/auth.service.ts:156-256 | each family has at most one token that is not revoked |
| RefreshTokens.RevokedAtIsFinal | apps/api/src/auth/auth.repository.ts:118-126 | `revoked_at` is never changed once set |
| RefreshTokens.OneSuccessorPerToken | apps/api/src/auth/auth.service.ts:170-202 | at most one refresh with a token succeeds |
| RefreshTokens.ReplayAfterRotation | apps/api/src/auth/auth.service.ts:175-181 | a rotated token that comes back is a race exactly within the grace period of its rotation, and then nothing changes; later it ends the session |
| RefreshTokens.EndedSessionNeverRefreshes | apps/api/src/auth/auth.service.ts:156-235 | after a late replay or a logout no token of the family is active and none refreshes, in any run |
| RefreshTokens.RotationReplaces | apps/api/src/auth/auth.service.ts:186-201 | success revokes the old token, adds its one successor and leaves the rest |
| RefreshTokens.ReplayOrLogoutKillsFamily | apps/api/src/auth/auth.service.ts:179-235 | late replay and logout leave no usable token in the family |
| RefreshTokens.DeadFamilyNeverRefreshes | apps/api/src/auth/auth.service.ts:156-235 | a dead family stays dead and never refreshes |
| Sessions.BornFor | apps/api/src/auth/auth.service.ts:186-256 | a token is good for fourteen days and belongs to the session's user and family |
| Sessions.RowSinceBirth | apps/api/src/auth/auth.service.ts:148-256 | its row is there until its account is deleted, keeps user, family and expiry, and is open exactly until something ends it |
| Sessions.OpenTokenRefreshesExactlyWhen | apps/api/src/auth/auth.service.ts:170-202 | an open token is answered with a successor exactly within fourteen days, and with expiry after |
| Sessions.SessionLives | apps/api/src/auth/auth.service.ts:170-256 | a session that nothing ends goes on refreshing |
| Sessions.RowAfter | apps/api/src/auth/auth.service.ts:148-256 | what one operation does to every row of the table |
| Sessions.RefreshIsAnswered | apps/api/src/auth/auth.service.ts:156-216 | which answer a refresh gets |
| Sessions.LogoutIsDoneExactlyWhen | apps/api/src/auth/auth.service.ts:219-235 | logout ends the session of every stored token that is signed |
| Sessions.RollsBack | apps/api/src/auth/auth.repository.ts:59-72 | what throws or is refused leaves the table as it was |
| RefreshTokens.AuthService.RefreshBody | apps/api/src/auth/auth.service.ts:170-202 | the statements of the transaction compute the specified step, or throw where it crashes |
| RefreshTokens.AuthService.RefreshSession | apps/api/src/auth/auth.repository.ts:59-72 | commit or roll back around them is one atomic step |
| RefreshTokens.AuthService.LogoutSession | apps/api/src/auth/auth.service.ts:219-235 | logout is the specified step |
| RefreshTokens.AuthService.Issue | apps/api/src/auth/auth.service.ts:242-256 | issuing is the specified step |
| RefreshTokens.AuthService.RemoveAccount | apps/api/src/auth/auth.repository.ts:129-131 | deleting an account deletes its tokens |
| MobileExchange.MobileExchangeService.Issue | apps/api/src/auth/token/mobile-exchange.service.ts:29-37 | a code is valid until its minute is over, to the second |
| MobileExchange.MobileExchangeService.Consume | apps/api/src/auth/token/mobile-exchange.service.ts:43-78 | consuming is the specified step: expiry, claims, sweep, reuse, record, verifier |
| MobileExchange.MobileExchangeService.SweepExpired | apps/api/src/auth/token/mobile-exchange.service.ts:81-88 | the sweep drops exactly the expired records |
| MobileExchange.AnswerExactlyWhen | apps/api/src/auth/token/mobile-exchange.service.ts:43-78 | over any calls: a code is exchanged for its user exactly within its minute, not a second time, and with the verifier of its challenge; and which error it is otherwise |
| MobileExchange.AcceptedAgainExactlyWhen | apps/api/src/auth/token/mobile-exchange.service.ts:43-88 | a used code passes again exactly when the call's two clock readings straddle its expiry |
| MobileExchange.AtMostOncePerCode | apps/api/src/auth/token/mobile-exchange.service.ts:43-88 | with one reading per call a code is used at most once |
| MobileExchange.StraddlingReplay | apps/api/src/auth/token/mobile-exchange.service.ts:43-88 | the straddling call exists |
| Pkce.Base64UrlEncode | apps/mobile/src/api/pkce.ts:17-32 | the encoder loop computes the specified text |
| Pkce.ValuesAreSextets | apps/mobile/src/api/pkce.ts:17-32 | its shifts and masks are the sextets of the bit string |
| Pkce.EncodeIsBase64Url | apps/mobile/src/api/pkce.ts:12-32 | length and every character are those of base64url without padding |
| Pkce.DecodeEncode | apps/mobile/src/api/pkce.ts:17-32 | decoding undoes encoding for every sequence of bytes |
| Pkce.AlphabetIsInvertible | apps/mobile/src/api/pkce.ts:12-15 | the alphabet has 64 distinct unreserved characters |
| Pkce.AlphabetInOrder | apps/mobile/src/api/pkce.ts:12-13 | which character stands for which six bits |
| Pkce.AsciiBytes | apps/mobile/src/api/pkce.ts:35-41 | the byte array filled in place is the low bytes of the text's code units |
| Pkce.AsciiIsCodes | apps/mobile/src/api/pkce.ts:34-41 | on ASCII text those are the character codes |
| Pkce.CreateCodeVerifier | apps/mobile/src/api/pkce.ts:44-48 | a verifier has 43 characters that the server accepts |
| Pkce.CreateCodeChallenge | apps/mobile/src/api/pkce.ts:50-52 | the challenge is the server's S256 value, accepted by it, and of no verifier with another hash |
| Burden.TaxIsMonotone | apps/api/src/rights-analysis/domain/total-burden.ts:60-84 | the tax range is a range and both ends grow with the price, across the joins and after rounding |
| Burden.BurdenIsMonotone | apps/api/src/rights-analysis/domain/total-burden.ts:101-133 | no part and no end of the total falls with a higher bid or more assumed |
| Burden.UnknownKindCoversBoth | apps/api/src/rights-analysis/domain/total-burden.ts:67-84 | not knowing the kind covers both kinds |
| BurdenTerms.TaxInFigures | apps/api/src/rights-analysis/domain/total-burden.ts:52-84 | the tax rates in figures, rounded to the won |
| BurdenTerms.BurdenInFigures | apps/api/src/rights-analysis/domain/total-burden.ts:86-133 | transfer and eviction costs in figures, and what the total is made of |
| BurdenTerms.UsesByKind | apps/api/src/auction-items/affordability.ts:22-31 | which uses are taxed as housing and which not |
| BurdenTerms.OutlookExactlyWhen | apps/api/src/auction-items/affordability.ts:59-65 | the outlook by what the tenants may lose |
| Burden.ComputeAffordability | apps/api/src/auction-items/affordability.ts:79-143 | the sum and the scenarios, one per kind that has a price, in order |
| BurdenTerms.ScenariosInFigures | apps/api/src/auction-items/affordability.ts:79-129 | one scenario for every kind that has a price, with that price, its burden and its share of the appraisal |
| Burden.ScenariosFollowKinds | apps/api/src/auction-items/affordability.ts:107-129 | each scenario is the one for its kind, and kinds come in order |
| Burden.ScenariosKeepOrder | apps/api/src/auction-items/affordability.ts:79-129 | P25, median and P75 keep their order in price, total and share of the appraisal |
| RegistryCache.RunKeepsInv | apps/api/src/codef-registry/cache/registry-request-cache.ts:12-38 | pending and kept entries always belong to the latest flight of their key |
| RegistryCache.OneFlightPerKey | apps/api/src/codef-registry/cache/registry-request-cache.ts:18-34 | a key never has two fetches under way |
| RegistryCache.OutcomeIsFinal | apps/api/src/codef-registry/cache/registry-request-cache.ts:23-34 | all who wait for a flight are told one outcome |
| RegistryCache.CallsJoinTheFlight | apps/api/src/codef-registry/cache/registry-request-cache.ts:12-34 | a call during a flight is answered with it and starts none |
| RegistryCache.CachedAnswerIsLatest | apps/api/src/codef-registry/cache/registry-request-cache.ts:13-16 | a kept value is the latest fetch's of that key |
| RegistryCache.FetchesAreBounded | apps/api/src/codef-registry/cache/registry-request-cache.ts:12-38 | at most one fetch per key plus its failures plus its invalidations, over any run |
| RegistryCache.InvalidationRefetchesExactlyWhen | apps/api/src/codef-registry/cache/registry-request-cache.ts:36-38 | the call after an invalidation fetches exactly when no flight is under way |
| RegistryCache.CallFetchesExactlyWhen | apps/api/src/codef-registry/cache/registry-request-cache.ts:12-34 | a call starts a fetch exactly when nothing is kept and none is under way |
| RegistryCache.FailedFetchIsTriedAgain | apps/api/src/codef-registry/cache/registry-request-cache.ts:23-30 | the call after a failed fetch starts another |
| RegistryCache.AnswersComeFromSource | apps/api/src/codef-registry/cache/registry-request-cache.ts:12-34 | every answer is the promise or the value of one flight, found from the events alone |
| RegistryCache.InvalidationHoldsExactlyWhen | apps/api/src/codef-registry/cache/registry-request-cache.ts:36-38 | whatever follows an invalidation, no answer comes from a fetch begun before it: exactly when none was under way |
| RegistryCache.NothingOldIsKeptExactlyWhen | apps/api/src/codef-registry/cache/registry-request-cache.ts:36-38 | no value fetched before it is kept after it: exactly when no fetch was without its outcome |
| RegistryCache.InvalidationMissesTheFlight | apps/api/src/codef-registry/cache/registry-request-cache.ts:23-38 | a fetch without its outcome at an invalidation is cached after it and answers calls |
| RegistryCache.RegistryRequestCache.GetOrFetch | apps/api/src/codef-registry/cache/registry-request-cache.ts:12-34 | the specified call step and its answer |
| RegistryCache.RegistryRequestCache.OnValue | apps/api/src/codef-registry/cache/registry-request-cache.ts:24-27 | a fulfilled fetch keeps its value |
| RegistryCache.RegistryRequestCache.OnError | apps/api/src/codef-registry/cache/registry-request-cache.ts:23-30 | a rejected fetch keeps nothing |
| RegistryCache.RegistryRequestCache.Finally | apps/api/src/codef-registry/cache/registry-request-cache.ts:28-30 | the pending entry goes last |
| RegistryCache.RegistryRequestCache.Invalidate | apps/api/src/codef-registry/cache/registry-request-cache.ts:36-38 | exactly the kept value goes |
| NoticeStage.CollectNoticesForRows | tools/collector/src/collector/runner.py:403-520 | rows are worked off in order up to the completed streak or the first exception, with exact counters |
| NoticeStage.CountsAddUp | tools/collector/src/collector/runner.py:403-520 | parsed plus failed plus unavailable are the rows worked off |
| NoticeStage.CountedByReply | tools/collector/src/collector/runner.py:403-520 | what each counter counts, in terms of ids and of the court's replies |
| NoticeStage.StreakSinceLastParsed | tools/collector/src/collector/runner.py:464-494 | the streak is the number of unavailable answers since the last parsed notice |
| NoticeStage.NoLookupAfterTheStreak | tools/collector/src/collector/runner.py:479-492 | nothing is worked off after the twentieth of them |
| NoticeStage.FindMissing | tools/collector/src/collector/runner.py:987-1003 | the loop keeps the rows to open and counts distinct and skipped items |
| NoticeStage.MissingExactlyWhen | tools/collector/src/collector/runner.py:987-1003 | a row is to be opened exactly when it is the first of its item and its notice is not stored |
| NoticeStage.MissingInOrder | tools/collector/src/collector/runner.py:987-1003 | in the order of the search |
| NoticeStage.VisitCourt | tools/collector/src/collector/runner.py:987-1025 | one court: what is missing, what of it the budget allows, and how it was worked off |
| NoticeStage.CollectNotices | tools/collector/src/collector/runner.py:973-1037 | all courts in turn, with exact counters; a block ends the run |
| NoticeStage.LookupsWithinLimit | tools/collector/src/collector/runner.py:1009-1011 | lookups over all courts never exceed the limit |
| NoticeStage.MostUrgentFirst | tools/collector/src/collector/runner.py:1004-1011 | what a court leaves out is dated no earlier than what it opens, undated rows last, and is left out only when the limit is used up |
| NoticeStage.StageAddsUp | tools/collector/src/collector/runner.py:1026-1035 | parsed, failed and unavailable add up to the rows worked off in stored courts, candidates to skipped and missing, and every other court is a failure or the block |

## Left out

- Payments are not claimed to grow with the sale price: the floors of stage 1 make that false by a few won.
- IEEE rounding of the pro-rata ratio, of tax rates and of page coordinates: exact numbers are used instead.
- Dates as text, times and malformed dates: dates are numbers; `notice_bid_date` and sale dates enter the model already read.
- SetOffRuns.SetOffNeverUnderstates: excludes negative rights between two of the tenant's shares, where it is false (`SetOffExactlyWhen`).
- Burden.BurdenIsMonotone: the list of assumed amounts enters as its sum, as the affordability caller passes it; the list of unknown items is constant and left out.
- The other fields of the DTOs, classification of rights and the rest of DTO validation: field copies and lookups that would only add easy members.
- NoticeCells.ParseDepositTranches: starts from the tokens of a cell; the regular expressions that find them are left out, and the reading of amounts written in Korean is a parameter.
- RowBands.RowsInRegion: starts from sorted anchors and fragments; building clusters, assigning columns and joining the text of a cell are left out, so whether a bucket makes a tenant row is a parameter.
- NoticePipeline.LoadAssumedDeposits: the SQL of the query; the rows of the notices asked for are selected by a function.
- Burden.ComputeAffordability: inputs that are passed through to the answer are not repeated in it.
- Dispatcher.NotificationDispatcher.Deliver: database errors outside sending, a crash of the process between claim and release (also in `OverlappingRuns`), message texts and the summary counters are left out; whether a group is worth a message and whether it is a quiet hour are parameters.
- RefreshTokens.AuthService.RefreshSession: a transaction is one step; interleavings of statements inside READ COMMITTED transactions are not modelled, the row id and the unique hash are one key, and signatures are a flag.
- MobileExchange.MobileExchangeService.Consume: JWT signing is abstract, and identifiers of codes are taken to be unique.
- Pkce.CreateCodeChallenge: SHA-256 is an arbitrary function on bytes.
- RegistryCache.RegistryRequestCache.GetOrFetch: a fetcher that throws before returning a promise, or that calls the cache itself, is left out; `cachedAt` is stored but never read, as in the source.
- NoticeStage.CollectNotices: the repository's own counts of inserted and updated rows are left out.
- NoticeStage.CollectNoticesForRows: the tenant table of a notice and its counters, progress logging and retries of the client are left out; sale dates are compared as numbers.
- The other stages of the daily run, HTTP, FCM, OAuth and CODEF transport, RSA, SQL text, maps, pages and labels: foreign calls and presentation.

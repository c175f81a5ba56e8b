# Verification of the control plane's stateful protocols

A Dafny model of the protocols that the control plane's correctness rests on, with proofs over every input, every run
and every interleaving of replicas. `dafny verify dfyconfig.toml` checks everything.

What is modelled, file by file:

- **Gateway listener sharding** (`ShardNames`, `GatewayShard`, `GatewayMachine`, `GatewayRuns`, `GatewayDrops`,
  `GatewaySplit`, `GatewayBackend`, `GatewaySequential`). Custom-domain listeners live on a pool of Gateways with a
  ceiling of 64 each.
  `GatewayMachine` is the protocol with every Kubernetes API call as one step of one replica and a Gateway update as a
  compare-and-set on its version; `GatewayBackend` has the operations as the backend runs them, loop by loop;
  `GatewayDrops` says when an attached listener stays and `GatewaySplit` when a host stays on one Gateway;
  `GatewaySequential` says what a run without interference achieves and ties the two together.
- **Metering** (`Calendar`, `Metering`, `MeteringRuns`). One tick of the meter with any failures and cancellation, and
  any number of replicas interleaved store operation by store operation.
- **Invoices and usage reporting** (`Invoices`, `InvoiceHistory`, `UsageReport`). Whole-cent arithmetic, the month
  windows of the history, and the watermark that turns cumulative totals into increments.
- **Release ledger** (`Releases`, `ReleaseRuns`, `ReleaseService`). Optimistic revision allocation, superseding and the
  reconciler, with `WithTx` atomic and rolling back as the store's interface promises.
- **Refresh tokens** (`RefreshTokens`, `IdentityService`). Rotation, reuse detection, revocation and cleanup.
- **Subscription webhook** (`Subscriptions`, `Webhook`). Resolve, apply, mark, and redelivery after every kind of failure.
- **Rate limiter** (`RateLimit`), **log streaming** (`SseStream`: the server's framing writer against the client's
  reader, section 9.2.5 of the WHATWG HTML Standard) and **mail encoding** (`Mail`: base64 against section 4 of
  RFC 4648, and line endings).

Each stateful part comes twice: as a step system whose invariant is proved for every run, and as a class whose methods
follow the source's loops and field updates and are proved against the same specification functions. Environment
choices are parameters: faults of store and provider calls, cancellation, clocks, generated ids, and what other replicas
do at each point where the source can be overtaken. Metering and deploy steps may fail without effect or after taking
effect (a lost reply).

## What the code does not guarantee

Where a comment promises more than the code gives, the model follows the code; a lemma shows a failing case and another
gives the exact condition or the exact extent.

- A host can end up on two Gateways when two attaches of it start together (`OverlappingAttachesSplitHost`), whatever
  the pool; it stays on one exactly when at most one is under way (`OneShardIff`).
- The collection of an emptied Gateway is a separate, unconditional delete: it can remove a listener attached meanwhile
  (`LateCollectionDropsListener`), and it can act on a verdict from a write that was refused
  (`StaleVerdictDeletesShard`). An attached listener is safe exactly when no detach of its host is on the way to it and
  nobody holds a verdict that its Gateway is empty (`AttachedStaysIff`).
- Detaching does not restore the pool after an attach that landed on an empty overflow Gateway
  (`DetachUndoesAttachIff`).
- Shard names parse more loosely than they are written (`CanonicalNameIff`), so two Gateways can claim one index.
- A watermark read that fails counts as a first run and skips hours (`UnreadWatermarkSkipsIff`).
- Bucket ids are distinct because of how organization ids are generated, not because of how bucket ids are built: they
  would collide for an organization whose id is another's prefixed with the storage metric (`BucketCollisionIff`), which
  ids of one length never are (`BilledOnceWithUUIDs`).
- Line items do not always add up to the charge (`LineItemsGap`), and the invoice history hides every period before an
  empty closed one (`MissingIff`, `QuietMonthHidesUsage`).
- Cents are billed twice when the provider books an increment that is not recorded (`TickDrift`). Across a rollover a
  record is billed twice when it is counted early but dated in the new period, and never when it arrives after the old
  period's last report but is dated in the old one, as metering's catch-up after an outage produces them
  (`EarlyRecordIsBilledTwice`, `LateRecordIsNeverBilled`; exactly then, `RolloverBillsRecords`).
- Nothing keeps the billing period from moving back, since an event stores whatever period end it carries; moving back
  can bill twice (`MovingBackBillsTwice`) or put the watermark ahead (`MovingBackPutsWatermarkAhead`), and
  `MovedPeriodIff` says exactly when it does.
- Revoking all of a user's tokens is not final while a mint of that user is in flight (`RevokeAllIsFinalIff`), and the
  store notices a replay only as long as cleanup has kept the rotated row (`ReplayIsDetectedIff`); cleanup drops a row
  after its expiry, which mirrors the presented string's own, so verification should reject such a string first.
- A failed newest release is its own default rollback target (`DefaultRollbackTarget`).
- Webhook idempotence needs unambiguous Stripe ids (`IdempotentIffUnambiguous`) and does not survive every event in
  between: one for the same organization can change what the redelivery would write (`LateRedeliveryClearsDunning`), one
  for another can take over the id it resolves by (`TakenOverIdBreaksIt`). `LateRedeliveryIff` and
  `OthersKeepRedeliveryHarmlessIff` say exactly when it is harmless.
- Pruning of the limiter shows when the clock steps back (`PruningShowsWhenTimeGoesBack`), and a client can get almost
  twice the limit through in one window length (`BurstBound`, `BurstBoundIsTight`).
- A failed payment followed by a successful one turns a trial into an active subscription (`FailedThenPaid`).
- The comment on line items puts the allowance before the dimensions; the code puts it last (`RowsOrdered`).
- The error event of a log stream reads like a log line (`ErrorEventLooksLikeALine`).

## Model

| member | source | states |
|---|---|---|
| ShardNames.NameRoundTrip | apps/api/internal/kube/gateway_shard.go:68-91 | every name the backend gives a shard parses back to that shard, for every base name and index |
| ShardNames.CanonicalNameIff | apps/api/internal/kube/gateway_shard.go:78-91 | a parsed pool member carries the name the backend would give its index exactly when its numeral has neither a plus sign nor a leading zero |
| ShardNames.SharedIndex | apps/api/internal/kube/gateway_shard.go:78-91 | two different Gateway names can claim one index, so parsing is not injective |
| GatewayShard.Capacity | apps/api/internal/kube/gateway_shard.go:98-136 | a shard has room exactly while its custom listeners, plus two on the primary, are fewer than the configured number and all its listeners fewer than 64; a configured number outside 1..64 counts as 64 |
| GatewayShard.WithoutMembers | apps/api/internal/kube/kube.go:1404-1424 | removal takes away exactly the listeners of that name, and keeps names unique |
| GatewayShard.WithoutCounts | apps/api/internal/kube/kube.go:1404-1424 | removing a custom listener that is there frees at least one slot of both limits |
| GatewayShard.MergeSpecsBounds | apps/api/internal/kube/kube.go:1580-1602 | a wildcard merge only appends, stays within the ceiling and uses no custom-domain budget |
| GatewayShard.MergeSpecsRefusedIff | apps/api/internal/kube/kube.go:1580-1602 | a wildcard merge is refused exactly when there are names to add and they do not all fit below 64; otherwise it adds one listener per new name |
| GatewayShard.MergeSpecsNames | apps/api/internal/kube/kube.go:1580-1602 | after a wildcard merge every requested name is present, only requested listeners were added, and no name repeats |
| GatewayMachine.FullIsCharged | apps/api/internal/kube/gateway_shard.go:343-370 | in any state of the protocol, a merge that finds its shard full is charged to an insertion another replica made there after the pool was read |
| GatewayMachine.StepKeeps | apps/api/internal/kube/gateway_shard.go:238-370 | every single API call of every replica keeps the whole protocol invariant |
| GatewayRuns.CapacityAlways | apps/api/internal/kube/gateway_shard.go:98-136 | under every interleaving of attaches, detaches, collections and wildcard merges no Gateway exceeds 64 listeners, no overflow shard the configured number of custom listeners, and the primary not that number less two |
| GatewayRuns.QuiescentStart | apps/api/internal/kube/gateway_shard.go:98-136 | any cluster within these numbers and with no call in flight can start such a run |
| GatewayRuns.ShardFullIsSomeoneElse | apps/api/internal/kube/kube.go:1343-1361 | over all runs, an attach is sent back for a full shard only because of somebody else's later insertion into that shard |
| GatewayRuns.GivingUpIsCharged | apps/api/internal/kube/kube.go:1343-1361 | an attach that exhausts its eight attempts was overtaken by at least eight insertions, none of them its own |
| GatewayRuns.SerialAttachesPlaceOnce | apps/api/internal/kube/gateway_shard.go:233-273 | if attaches of one host never overlap, the host is on at most one shard however everything else interleaves |
| GatewayRuns.NewHolder | apps/api/internal/kube/gateway_shard.go:343-370 | nothing but a committed merge for a host ever makes a shard hold it |
| GatewaySplit.OneShardIff | apps/api/internal/kube/gateway_shard.go:238-273 | for every budget and pool: a host whose attaches under way have not looked it up yet is on at most one shard in every run that begins no further attach of it exactly when it is now and at most one attach of it is under way |
| GatewaySplit.OverlappingAttachesSplitHost | apps/api/internal/kube/gateway_shard.go:238-273 | from every idle cluster with a primary, two attaches of a host begun together can leave it on two shards, because the lookup and the allocation read the pool separately |
| GatewayDrops.AttachedStays | apps/api/internal/kube/kube.go:1390-1440 | an attached listener stays where it is through every run that does not begin a detach of its host, unless such a detach is on its way or somebody holds a verdict that its shard is empty |
| GatewayDrops.AttachedStaysIff | apps/api/internal/kube/kube.go:1390-1440 | that condition is exact: each of these threats comes true in some run that begins no detach of the host |
| GatewayDrops.LateCollectionDropsListener | apps/api/internal/kube/kube.go:1425-1436 | one instance: the deletion of an emptied shard takes along a listener whose attach reported success |
| GatewayDrops.EmptiedShardIsReachable | apps/api/internal/kube/kube.go:1390-1440 | the starting point of that schedule is reached from an idle cluster |
| GatewayDrops.StaleVerdictDeletesShard | apps/api/internal/kube/kube.go:1394-1438 | another instance: after a lost write a detach deletes an overflow shard with all listeners it holds by then, because the verdict that the shard is empty outlives the conflict |
| GatewayDrops.StaleVerdictIsReachable | apps/api/internal/kube/kube.go:1394-1438 | the starting point of that instance, with another host attached to the shard, is reached from an idle cluster |
| GatewayBackend.Backend.ShardForHost | apps/api/internal/kube/gateway_shard.go:201-227 | finds a shard holding the host, and reports none exactly when none holds it |
| GatewayBackend.Backend.ListGatewayShards | apps/api/internal/kube/gateway_shard.go:158-181 | one view per Gateway with its true counts, in ascending index order |
| GatewayBackend.Backend.EnsureShardGateway | apps/api/internal/kube/gateway_shard.go:285-332 | creates an empty shard unless it exists, and fails exactly when there is no primary to clone |
| GatewayBackend.Backend.AllocateListenerShard | apps/api/internal/kube/gateway_shard.go:238-273 | a placed host stays where it is; any other goes to the lowest shard with room or, when all are full, to the next index, which is created |
| GatewayBackend.Backend.MergeListenerIntoGateway | apps/api/internal/kube/gateway_shard.go:343-370 | idempotent append: missing Gateway, full shard and success are told apart exactly, and a success means the host is there |
| GatewayBackend.Backend.EnsureGatewayListener | apps/api/internal/kube/kube.go:1327-1362 | success means the host is placed; unless others remove something, no Gateway is lost and every listener keeps its place; without interference the first attempt decides and the pool changes by one append on the first fit; giving up needs interference in all eight attempts |
| GatewayBackend.Backend.RemoveListenerFromGateway | apps/api/internal/kube/kube.go:1390-1440 | removes the host from that Gateway only and deletes the Gateway if it is an overflow shard left empty |
| GatewayBackend.Backend.RemoveGatewayListener | apps/api/internal/kube/kube.go:1369-1383 | detaches the host from a shard holding it, and changes nothing for an empty or unplaced host |
| GatewayBackend.Backend.EnsureGatewayListeners | apps/api/internal/kube/kube.go:1566-1607 | all requested wildcard listeners reach the primary or none does, and it is refused exactly when the ceiling or a missing primary forbids it |
| GatewayBackend.Backend.ShardParentRefs | apps/api/internal/kube/gateway_shard.go:395-443 | the extra references are overflow shards without repeats, each serving one of the sanitised hosts, and every placed host is served by one of them or the primary |
| GatewaySequential.FirstFitExists | apps/api/internal/kube/gateway_shard.go:246-272 | every pool has a shard that allocation would choose |
| GatewaySequential.AttachIsDetermined | apps/api/internal/kube/gateway_shard.go:238-273 | the contract of an undisturbed attach determines the resulting pool |
| GatewaySequential.AttachPlacesOnce | apps/api/internal/kube/gateway_shard.go:343-370 | an attach leaves exactly one listener for the host, at the end of one shard, and every other listener in its place |
| GatewaySequential.DetachUndoesAttachIff | apps/api/internal/kube/kube.go:1369-1440 | detaching a freshly attached host restores the pool exactly, unless the attach landed on an overflow shard that was already there and empty |
| GatewaySequential.AloneIsSequential | apps/api/internal/kube/kube.go:1343-1361 | the interleaved protocol run by one replica alone equals the sequential attach, at its first attempt |
| GatewaySequential.AloneDetaches | apps/api/internal/kube/kube.go:1369-1440 | the calls of one detach made without interruption remove the host from that Gateway and collect an overflow shard left empty, as the sequential detach does |
| GatewaySequential.AloneMergesWildcards | apps/api/internal/kube/kube.go:1580-1602 | the calls of one wildcard merge made without interruption add all that is requested, or nothing when it does not fit |
| GatewaySequential.FirstFitCount | apps/api/internal/kube/gateway_shard.go:98-136 | n distinct hosts attached to a fresh primary with b base listeners occupy the primary alone up to its slots (the smaller of the configured number less two and 64 less b), else one Gateway plus the rest divided by the configured number, rounded up |
| GatewaySequential.FirstFitIsOptimal | apps/api/internal/kube/gateway_shard.go:238-273 | any pool within the limits that holds n distinct hosts, wherever they are, has at least as many Gateways |
| GatewaySequential.RoutingComplete | apps/api/internal/kube/gateway_shard.go:395-443 | with every host on at most one shard, the extra references are exactly the overflow shards that hold one of the hosts |
| GatewaySequential.NormalizeIdempotent | apps/api/internal/kube/workload.go:84-93 | normalising a host twice changes nothing, so routing and attaching look up one name |
| GatewaySequential.NormalizeIs | apps/api/internal/kube/workload.go:84-93 | a normalised host is the host without the white space around it, in lower case |
| GatewaySequential.SanitizedHosts | apps/api/internal/kube/workload.go:84-93 | a workload's hosts are the normalised forms of its domains that are not empty |
| Calendar.StampInjective | apps/api/internal/billing/pricing.go:231-241 | distinct hours have distinct stamps in the format of the bucket ids |
| Calendar.MonthStartIs | apps/api/internal/billing/pricing.go:231-241 | counting days month by month from the year 0 gives the closed form of the Gregorian calendar, leap years by divisibility |
| Calendar.MonthTable | apps/api/internal/billing/invoices.go:112 | the lengths of the twelve months, February by the leap rule |
| Calendar.MonthEarlierIs | apps/api/internal/billing/invoices.go:112 | one month before the d-th, at the same time of day, is the d-th of the month before if it has one, else the missing days are counted on into the month itself; either way the previous month's length back |
| Calendar.StampOfCivil | apps/api/internal/billing/pricing.go:231-241 | the stamp of an hour prints its civil year, month, day and hour |
| Metering.BucketCollisionIff | apps/api/internal/billing/pricing.go:231-241 | two buckets share an id exactly when they are the same bucket, or one organization's id is another's prefixed with the storage metric |
| Metering.BucketIdOfCivil | apps/api/internal/billing/pricing.go:231-241 | the bucket ids spelled out for every organization, civil date and hour, in both dimensions |
| Metering.CatchUpHours | apps/api/internal/billing/pricing.go:410-431 | behind the clock a tick meters the consecutive hours right after the watermark, at most 48, none past the current one |
| Metering.NothingToCatchUp | apps/api/internal/billing/pricing.go:410-422 | at the clock nothing is metered; without a watermark, or with one ahead of the clock, the current hour alone |
| Metering.TickAdvances | apps/api/internal/billing/pricing.go:264-310 | a tick behind the clock moves the watermark by exactly the number of hours, from the first on, that succeeded for every organization before a cancellation, or leaves it if the move was not stored |
| Metering.TicksAdvance | apps/api/internal/billing/pricing.go:410-443 | at a fixed clock n all-success ticks move the watermark by 48 n hours or to the clock, whichever is nearer |
| Metering.TicksToCatchUp | apps/api/internal/billing/pricing.go:410-443 | the clock is reached after exactly the gap divided by 48, rounded up, ticks |
| Metering.UnreadWatermarkSkipsIff | apps/api/internal/billing/pricing.go:410-422 | a watermark that cannot be read makes the tick skip hours exactly when it lagged the clock by more than one hour |
| Metering.UnreadTickSkipsIff | apps/api/internal/billing/pricing.go:264-310 | a tick without a readable watermark moves it past hours it did not meter exactly when the lag exceeded one hour, the current hour succeeded uncancelled and the move was stored |
| Metering.OkPrefixIsLongest | apps/api/internal/billing/pricing.go:272-310 | the prefix of hours the watermark follows is the longest one in which every organization succeeded |
| Metering.TickRecords | apps/api/internal/billing/pricing.go:264-347 | after a tick every positive cost of every hour the watermark moved past is in the store, nothing stored before has changed, and whatever is new is the cost of its organization, dimension and hour |
| Metering.TickBillsAtCost | apps/api/internal/billing/pricing.go:321-371 | every organization-hour that the watermark moves past leaves each positive cost under its bucket in exactly the amount it cost, unless the bucket was there before |
| Metering.CancelledTickStops | apps/api/internal/billing/pricing.go:272-300 | a tick cancelled at an organization of some hour writes nothing for it and those after it, nor for later hours, and never counts that hour as metered |
| Metering.OrgHourRecords | apps/api/internal/billing/pricing.go:321-371 | an organization-hour that succeeds has both its positive costs in the store under the ids of their own buckets, and a new record holds exactly what it cost |
| Metering.Meter.ListHours | apps/api/internal/billing/pricing.go:410-431 | the loop yields the hours of the tick for a missing, a current, a future and a lagging watermark |
| Metering.Meter.WriteCostBucket | apps/api/internal/billing/pricing.go:352-371 | inserts the bucket unless the cost is not positive or the id is taken, and counts what it inserted |
| Metering.Meter.MeterOrgHour | apps/api/internal/billing/pricing.go:321-347 | succeeds exactly when both cost reads and both writes do; a failure stops before the next write |
| Metering.Meter.MeterHour | apps/api/internal/billing/pricing.go:276-300 | meters organizations in order up to a cancellation and reports whether all of them succeeded |
| Metering.Meter.MeterHours | apps/api/internal/billing/pricing.go:272-310 | the last hour it reports done ends the longest all-success prefix of the hours before a cancellation |
| Metering.Meter.MeterUsage | apps/api/internal/billing/pricing.go:264-310 | under any failures and cancellation the watermark moves to the end of the longest all-success prefix of hours and nowhere else, and the tick succeeds exactly when that is every hour and the move was stored |
| MeteringRuns.NoHourSkipped | apps/api/internal/billing/pricing.go:264-310 | for any number of replicas, faults, crashes and clocks: every hour from the initial watermark to the stored one was metered for every organization, as long as watermark reads succeed |
| MeteringRuns.PassedHoursAreBilled | apps/api/internal/billing/pricing.go:264-371 | in every such run each organization-hour the watermark has passed had acknowledged writes of its compute cost and then of its storage cost; each positive one is in the store, and the first write of a bucket is there at exactly the amount it named |
| MeteringRuns.BilledAsNamed | apps/api/internal/billing/pricing.go:352-371 | no amount is made up: in every run a metered record was first written by some tick for that organization, dimension and hour, at exactly the positive amount it holds |
| MeteringRuns.BilledOnce | apps/api/internal/store/memory.go:1029-1039 | in every run each organization, dimension and hour has at most one record, and exactly one once its write was acknowledged |
| MeteringRuns.BilledOnceWithUUIDs | apps/api/internal/identity/service.go:246-247 | the same for any organizations with generated ids, whatever else they are |
| MeteringRuns.RecordsNeverChange | apps/api/internal/store/memory.go:1029-1039 | no run ever changes or drops a usage record |
| MeteringRuns.UnreadableWatermarkSkips | apps/api/internal/billing/pricing.go:410-422 | one failed watermark read is enough to leave hours unmetered for good |
| Invoices.UsageSoFarCents | apps/api/internal/billing/invoice.go:45-53 | whole cents of the total over all priced dimensions, rounded once |
| Invoices.UsageByDimensionCents | apps/api/internal/billing/invoice.go:59-73 | a dimension is listed exactly when its own total reaches a whole cent, with those cents |
| Invoices.InvoiceFromRecords | apps/api/internal/billing/invoice.go:78-95 | fee plus what usage exceeds the allowance by; nothing is charged without a plan |
| Invoices.MicroSplits | apps/api/internal/billing/invoice.go:45-73 | the total is the sum over the three priced dimensions |
| Invoices.QuoTruncates | apps/api/internal/billing/invoice.go:45-53 | conversion to cents drops less than a cent, toward zero |
| Invoices.LineItems | apps/api/internal/billing/invoices.go:179-201 | the rows are the fee, the dimensions in fixed order and the allowance credit, rows of zero left out |
| Invoices.RowsHold | apps/api/internal/billing/invoices.go:179-201 | the fee stands under its key, the whole cents of each priced dimension under that dimension, the negative credit under the allowance, each only if it is not zero, and there is no other row |
| Invoices.RowsOrdered | apps/api/internal/billing/invoices.go:179-201 | the rows come in the order fee, compute, storage, egress, allowance, and no key has two |
| Invoices.CreditOf | apps/api/internal/billing/invoices.go:196-199 | the credit is never negative, exceeds neither allowance nor usage when positive, and reaches one of them |
| Invoices.CreditBalances | apps/api/internal/billing/invoices.go:193-200 | with an allowance and records that are not negative, fee plus usage less the credit is the charge |
| Invoices.LineItemsGap | apps/api/internal/billing/invoices.go:179-201 | the rows fall short of the charge by zero, one or two cents: the whole cents hidden in the three remainders; they add up exactly when the remainders stay below a cent |
| Invoices.LineItemsMissTwoCents | apps/api/internal/billing/invoices.go:189-194 | three sub-cent amounts lose two cents |
| InvoiceHistory.SliceWindow | apps/api/internal/billing/invoices.go:119-124 | keeps exactly the records of the half-open window, in order |
| InvoiceHistory.ComputePeriod | apps/api/internal/billing/invoices.go:112-136 | one period: month-long window, status, invoice and line items of the records in it |
| InvoiceHistory.History | apps/api/internal/billing/invoices.go:80-146 | contiguous periods back from the period end, stopping before the limit exactly at the first empty closed period |
| InvoiceHistory.WindowLength | apps/api/internal/billing/invoices.go:112 | a window that ends on the d-th of a month starts at the same time of day on the d-th of the month before, or past its end if it has no such day; either way it is as long as that month |
| InvoiceHistory.BoundaryOnDay | apps/api/internal/billing/invoices.go:109-136 | a period end no later than the 28th keeps its day and time through the whole history: the n-th boundary is n calendar months back |
| InvoiceHistory.BoundaryOverflow | apps/api/internal/billing/invoices.go:109-136 | any day of the month is kept as long as the months on the way have it; at the first that does not, the boundary stays in the month after it, on the day by which the date runs over, and keeps that one for good |
| InvoiceHistory.HistoryShape | apps/api/internal/billing/invoices.go:80-176 | the history starts at the subscription's period end, or at the present without one; each period ends where the one before starts; the newest is open and the others are overdue exactly for a subscription past due, unpaid or canceled |
| InvoiceHistory.ExactlyOneWindow | apps/api/internal/billing/invoices.go:109-124 | every instant from the oldest start to the period end is in exactly one window |
| InvoiceHistory.HistoryShortfall | apps/api/internal/billing/invoices.go:109-145 | billing m periods separately loses at most m-1 cents against billing their records at once |
| InvoiceHistory.HistoryAddsUp | apps/api/internal/billing/invoices.go:109-145 | the usage cents that a history of m periods shows fall short of the whole cents of all the usage it covers by at most m-1 |
| InvoiceHistory.MissingIff | apps/api/internal/billing/invoices.go:138-142 | a period within the limit is missing from the history exactly when some closed period after it is empty |
| InvoiceHistory.QuietMonthHidesUsage | apps/api/internal/billing/invoices.go:138-142 | one quiet month makes the history two periods long and hides the usage of the third |
| UsageReport.WatermarkNeverAhead | apps/api/internal/billing/invoice.go:276-341 | as long as the period never moves back, the watermark never exceeds the cents the provider accepted in its period, whatever the provider and the store do |
| UsageReport.TickDrift | apps/api/internal/billing/invoice.go:276-341 | from any state, a tick double-bills exactly when a positive increment was booked but not recorded, and by exactly that increment |
| UsageReport.CleanHasNoDrift | apps/api/internal/billing/invoice.go:276-341 | without such a loss, booked and recorded cents stay equal over any schedule whose period never moves back |
| UsageReport.IncrementsTelescope | apps/api/internal/billing/invoice.go:276-329 | after any clean schedule whose period never moves back a successful tick leaves both the watermark and the booked cents at the whole cents of the period's total |
| UsageReport.MovedPeriodIff | apps/api/internal/billing/webhook.go:181-185 | after any schedule and a move of the period to any start, a clean stretch bills that period exactly if and only if what was booked there equalled what the watermark then counted for; otherwise it is off by the difference |
| UsageReport.MovingBackBillsTwice | apps/api/internal/billing/webhook.go:181-185 | forward and back again, with nothing lost, books one cent of usage twice |
| UsageReport.MovingBackPutsWatermarkAhead | apps/api/internal/billing/invoice.go:299-304 | moving back over a reported period puts the watermark ahead of what was booked |
| UsageReport.RolloverAccounting | apps/api/internal/billing/invoice.go:276-329 | across a rollover of a clean schedule the old period stays billed for exactly what its last report counted, and the new one for everything dated since its start |
| UsageReport.RolloverBillsRecords | apps/api/internal/billing/invoice.go:292-304 | those two billings are the sum over the records, each as often as it is billed: twice exactly when counted early and dated in the new period, never exactly when it arrives after the old period's last report and is dated in the old one |
| UsageReport.EarlyRecordIsBilledTwice | apps/api/internal/billing/invoice.go:297-304 | a record dated past the new start but counted before the rollover is billed in both periods |
| UsageReport.LateRecordIsNeverBilled | apps/api/internal/billing/invoice.go:292-304 | a record dated in the old period that arrives after its last report is billed in neither |
| UsageReport.Reporter.ListUsageSince | apps/api/internal/store/memory.go:1050-1061 | keeps exactly the records dated at or after the instant |
| UsageReport.Reporter.PersistReportState | apps/api/internal/billing/invoice.go:335-341 | stores the cents under the current period start |
| UsageReport.Reporter.ReportUsage | apps/api/internal/billing/invoice.go:276-329 | one report is one step of the protocol: push the increment, then persist the total; a push is reported exactly when there was an increment and both succeeded |
| Releases.RevisionsAreDense | apps/api/internal/platform/releases.go:107-112 | in a ledger an app's revisions are exactly 1..n |
| Releases.OneActive | apps/api/internal/platform/releases.go:113-118 | at most one release of an app is active, and it is the newest |
| Releases.FreeRevisionMeansFresh | apps/api/internal/platform/releases.go:102-138 | if the revision computed from an old listing is still free, no revision was added since |
| Releases.NothingLeftActive | apps/api/internal/platform/releases.go:107-119 | superseding from an old listing whose next revision is free leaves no row of the app active |
| Releases.SupersedeEffect | apps/api/internal/platform/releases.go:107-119 | superseding rewrites the status of exactly the rows that the listing shows as active or deploying and changes nothing else |
| Releases.FreshSupersedeEffect | apps/api/internal/platform/releases.go:107-119 | from an up-to-date listing it supersedes the app's active release and nothing else |
| Releases.CommitKeepsLedger | apps/api/internal/platform/releases.go:102-138 | a commit based on an old listing keeps the whole ledger invariant and rewrites no history |
| ReleaseRuns.LedgerAlways | apps/api/internal/platform/releases.go:59-195 | from an empty ledger, under every interleaving of deploys and stale reconciler writes, revisions are exactly 1..n, unique, and only revision n can be active |
| ReleaseRuns.HistoryIsFrozen | apps/api/internal/platform/releases.go:102-138 | a release once recorded keeps its app, revision and snapshot in every run |
| ReleaseRuns.ConflictIffRaced | apps/api/internal/store/memory.go:540-556 | a commit with a fresh id conflicts exactly when a revision was added for the app since its listing |
| ReleaseRuns.GivingUpIsCharged | apps/api/internal/platform/releases.go:68-95 | a deploy that gives up made five attempts, each lost to an id collision or to a revision that was not in the ledger when the call began and is now |
| ReleaseRuns.DeployingRowBreaksIt | apps/api/internal/platform/releases.go:176-195 | were a row ever `deploying`, a late reconciler could make two releases active |
| ReleaseRuns.ListingRevisions | apps/api/internal/store/memory.go:568-581 | the k-th entry of a listing is revision n-k |
| ReleaseRuns.DefaultRollbackTarget | apps/api/internal/platform/releases.go:312-328 | the default target is the previous revision exactly when the newest is active; a failed newest release is its own target |
| ReleaseRuns.ExplicitRollbackTarget | apps/api/internal/platform/releases.go:312-328 | an explicit target is found exactly when the revision exists, and is that revision |
| ReleaseService.Service.ListReleasesByApp | apps/api/internal/store/memory.go:568-581 | every row of the app exactly once, newest revision first |
| ReleaseService.Service.UpdateRelease | apps/api/internal/store/memory.go:583-591 | rewrites an existing row and refuses a missing one |
| ReleaseService.Service.AllocateAndInsert | apps/api/internal/platform/releases.go:102-138 | commits the supersede and the insert together, or writes nothing on a conflict |
| ReleaseService.Service.Attempt | apps/api/internal/platform/releases.go:102-138 | one attempt, from its listing to its commit, whatever others complete in between: a success is active and newest, a failure needs a competing deploy or an id collision, and without interference it adds that row alone |
| ReleaseService.Service.RecordRelease | apps/api/internal/platform/releases.go:59-95 | with others at work between listing and commit, a success is active and the app's newest revision; a failure needs a competing deploy or an id collision in every attempt; without interference one row with the next revision is added, the active release is superseded, and every other row stays as it was |
| ReleaseService.Service.CurrentRelease | apps/api/internal/platform/releases.go:151-163 | returns the active release, and none exactly when none is active |
| ReleaseService.Service.ReconcileReleaseStatus | apps/api/internal/platform/releases.go:176-195 | changes nothing but the active release of the app, to failed, and only when the machine failed |
| RefreshTokens.StepKeeps | apps/api/internal/identity/service.go:323-370 | every store operation of every call keeps: one successor per consumed id, one live or minted token per login |
| RefreshTokens.OneSuccessorEver | apps/api/internal/identity/service.go:357-369 | in every run each token id is replaced at most once |
| RefreshTokens.LiveAtMostLogins | apps/api/internal/identity/service.go:1081-1103 | a user's live tokens plus those being minted never outnumber the user's logins, in every run |
| RefreshTokens.RevokedNeverRefreshes | apps/api/internal/identity/service.go:337-369 | an id that is no longer live is never consumed by a rotation again |
| RefreshTokens.RevokeAllIsFinalIff | apps/api/internal/store/memory.go:838-848 | revoking all tokens ends every session until the next login exactly when no mint of that user is in flight |
| RefreshTokens.ReplayIsDetectedIff | apps/api/internal/identity/service.go:337-342 | replaying a rotated token kills its successor exactly as long as cleanup has kept the rotated row |
| RefreshTokens.AloneIsRefresh | apps/api/internal/identity/service.go:323-370 | the interleaved protocol run by one call alone is the sequential refresh |
| RefreshTokens.AloneSucceedsIff | apps/api/internal/identity/service.go:337-370 | with nobody in between, presenting a stored token brings the new one to life exactly when the token is neither revoked nor expired |
| RefreshTokens.SuccessorWasEarned | apps/api/internal/identity/service.go:337-370 | in every run a refreshed token replaces one of the same login that was presented while it was stored, unrevoked and without an expiry or before it |
| RefreshTokens.RotatingFrom | apps/api/internal/identity/service.go:337-356 | in every run a process rotates only a token that it presented unrevoked and unexpired |
| RefreshTokens.LivesOnIff | apps/api/internal/store/memory.go:807-867 | over any run a live token stays live, its row untouched, exactly when no step rotates it, revokes it or all of its user's tokens, or collects it after its expiry: what happens to other users' tokens does not matter |
| RefreshTokens.KillingFrom | apps/api/internal/identity/service.go:337-342 | a user's tokens are all revoked by a refresh only after one of them was found revoked, when it was presented or at the compare-and-set |
| RefreshTokens.IssuedIff | apps/api/internal/identity/service.go:323-370 | a token is exchanged exactly when it is stored, unrevoked and unexpired, its user is known, it is still there unrevoked at the compare-and-set and the new id is free; the store afterwards differs in those two rows alone |
| RefreshTokens.ReplayEndsTheFamily | apps/api/internal/identity/service.go:337-368 | whoever finds the token revoked, at once or at the compare-and-set, is refused and revokes all tokens of that user and nobody else's; whoever finds it gone changes nothing |
| RefreshTokens.CleanupIsInvisible | apps/api/internal/store/memory.go:850-867 | collecting rows that have expired by now never changes whether a token is exchanged |
| IdentityService.Service.CreateRefreshToken | apps/api/internal/store/memory.go:787-795 | inserts a new id and refuses a taken one |
| IdentityService.Service.RevokeRefreshToken | apps/api/internal/store/memory.go:807-817 | revokes that token alone |
| IdentityService.Service.RevokeRefreshTokenIfActive | apps/api/internal/store/memory.go:823-836 | compare-and-set: wins exactly when the token is there and not revoked |
| IdentityService.Service.RevokeAllUserRefreshTokens | apps/api/internal/store/memory.go:838-848 | revokes every token of the user and no other |
| IdentityService.Service.DeleteExpiredRefreshTokens | apps/api/internal/store/memory.go:855-867 | drops exactly the expired rows, revoked or not, and counts them |
| IdentityService.Service.Issue | apps/api/internal/identity/service.go:1081-1103 | stores one live token of the user with the configured expiry |
| IdentityService.Service.Refresh | apps/api/internal/identity/service.go:323-370 | outcome and store follow the rotation rules for every interleaving of inserts, revocations and cleanup by others between its read and its compare-and-set; only an unrevoked, unexpired token of a known user is exchanged, and without interference it is |
| IdentityService.Service.Logout | apps/api/internal/identity/service.go:375-388 | revokes the presented token and is silent about anything else |
| Webhook.ResolvesAgain | apps/api/internal/billing/webhook.go:225-245 | an event changes the ids the next lookup searches by, yet the next lookup finds the same organization |
| Webhook.ApplyIsIdempotent | apps/api/internal/billing/webhook.go:131-220 | applying an event twice in a row equals applying it once, for every event and every unambiguous store |
| Webhook.IdempotentIffUnambiguous | apps/api/internal/billing/webhook.go:225-245 | a store makes every event idempotent exactly when no two organizations share a subscription or customer id |
| Webhook.MarkedIsInert | apps/api/internal/billing/webhook.go:80-88 | a marked event never changes the store again |
| Webhook.RedeliveryAppliesOnce | apps/api/internal/billing/webhook.go:69-118 | over any number of failing, repeated and successful deliveries of one event the effect is that of one application |
| Webhook.HarmlessIff | apps/api/internal/billing/webhook.go:131-220 | applying an event changes nothing exactly when the subscription already has what it would write |
| Webhook.HarmlessApplicationIff | apps/api/internal/billing/webhook.go:131-245 | whatever the lookup picks, applying an event changes nothing exactly when every subscription it may resolve to already has what it would write |
| Webhook.LateRedeliveryIff | apps/api/internal/billing/webhook.go:60-63 | an event delivered again after any sequence of others is harmless exactly when, for every organization it resolves to now, the events that resolved there have left, or brought back, everything it would write |
| Webhook.ResolvesSameIff | apps/api/internal/billing/webhook.go:225-245 | in an unambiguous store an event resolves to the same organization again exactly when it named it outright, or its subscription id decides and is that organization's, or nobody has that id and the customer id is that organization's |
| Webhook.OthersKeepRedeliveryHarmlessIff | apps/api/internal/billing/webhook.go:60-63 | if all events in between were other organizations', a redelivery is harmless exactly when none of them has taken over the subscription id it names, or the one that has is settled for it |
| Webhook.TakenOverIdBreaksIt | apps/api/internal/billing/webhook.go:156-245 | for any two organizations, one event that gives the second the subscription named by a failed payment of the first makes its redelivery put the second into dunning, in a store unambiguous all along |
| Webhook.UnambiguousKeptIff | apps/api/internal/billing/webhook.go:156-187 | an event keeps the store unambiguous exactly when the ids it leaves on its organization are nobody else's |
| Webhook.CheckoutIs | apps/api/internal/billing/webhook.go:131-150 | field by field: a completed checkout activates whatever the state was and captures the ids it names; it resolves by client reference, metadata, customer |
| Webhook.SubscriptionEventIs | apps/api/internal/billing/webhook.go:156-187 | field by field: a subscription event takes over the state it reports, a deletion that of a canceled one, and captures the ids and the period end it names |
| Webhook.PaymentIs | apps/api/internal/billing/invoices.go:284-332 | a successful payment turns past due and unpaid into active and does nothing else; a failed one turns active, trialing and incomplete into past due and does nothing else |
| Webhook.PaymentsKeepResolution | apps/api/internal/billing/webhook.go:189-245 | payments change no id, so every later event finds the organization it would have found before |
| Webhook.FailedThenPaid | apps/api/internal/billing/invoices.go:284-332 | a failed payment and then a successful one leave the organization active unless canceled, all else as it was: restored exactly if and only if it was active or canceled, so a trial is not |
| Webhook.DunningLadder | apps/api/internal/billing/invoices.go:284-332 | the second step of dunning is taken only on request, a payment undoes either step, and nothing leads out of a cancellation |
| Subscriptions.StatusRoundTrip | apps/api/internal/domain/domain.go:433-454 | reading a state's own name gives that state, and every name that is no state's reads as incomplete |
| Webhook.LateRedeliveryClearsDunning | apps/api/internal/billing/webhook.go:156-187 | one instance: an activation redelivered after a failed payment takes the organization out of dunning |
| Webhook.Service.FindBy | apps/api/internal/billing/webhook.go:232-242 | finds a match whenever there is one |
| Webhook.Service.ResolveOrg | apps/api/internal/billing/webhook.go:225-245 | resolves by organization ids, then subscription id, then customer id |
| Webhook.Service.Apply | apps/api/internal/billing/webhook.go:131-220 | a success is one application of the event, for a payment the dunning change spelled out; a failure is none or one |
| Webhook.Service.ProcessEvent | apps/api/internal/billing/webhook.go:69-118 | applies before it marks: a marked event was applied, and every failure leaves the event unmarked, applied, or both |
| RateLimit.PruningIsInvisible | apps/api/internal/httpx/ratelimit.go:45-69 | with times that never go back the limiter answers exactly as one that never prunes |
| RateLimit.PruningShowsWhenTimeGoesBack | apps/api/internal/httpx/ratelimit.go:45-69 | any step back of the clock, for every limit and every positive window, can make pruning visible |
| RateLimit.ClientsAreIndependent | apps/api/internal/httpx/ratelimit.go:45-60 | what one client gets through depends on its own requests alone |
| RateLimit.WindowAllowsExactly | apps/api/internal/httpx/ratelimit.go:45-60 | a window lets exactly the first `limit` requests of a client through, counting the one that opened it, which passes in any case |
| RateLimit.RefusedIsInvisible | apps/api/internal/httpx/ratelimit.go:45-60 | a refused request changes no later answer |
| RateLimit.BurstBound | apps/api/internal/httpx/ratelimit.go:45-69 | in any interval of one window length a client gets at most 2 * max(1, limit) - 1 requests through |
| RateLimit.BurstBoundIsTight | apps/api/internal/httpx/ratelimit.go:45-60 | that bound is reached |
| RateLimit.Limiter.Allow | apps/api/internal/httpx/ratelimit.go:45-60 | one request updates the client's bucket and, when a window opens, drops every elapsed bucket |
| RateLimit.Limiter.PruneLocked | apps/api/internal/httpx/ratelimit.go:63-69 | drops exactly the elapsed buckets |
| SseStream.ChunkingIsInvisible | apps/api/internal/httpx/apps.go:410-425 | however a log is cut into writes, the emitted bytes are the same and the buffer is the unterminated tail |
| SseStream.EndToEnd | apps/cli/internal/client/client.go:179-193 | the client receives the complete lines, carriage returns removed, in order; all of them exactly when each framed line fits the scanner's buffer, else those before the first that does not |
| SseStream.ReadFrame | apps/cli/internal/client/client.go:182-189 | one frame yields its one line, if it fits |
| SseStream.CRLFReadsAsLF | apps/cli/internal/client/client.go:182-189 | a line that ends in a carriage return and a newline reads like one that ends in a newline |
| SseStream.SpaceIsOptional | apps/cli/internal/client/client.go:185-188 | one space after the field name is dropped, no space is needed, and no more than one is dropped |
| SseStream.EscapeIsStripCR | apps/api/internal/httpx/apps.go:430-433 | on a line without newlines escaping only removes carriage returns, so a frame has one data line |
| SseStream.EscapeIs | apps/api/internal/httpx/apps.go:430-433 | on any text escaping removes the carriage returns, turns newlines into spaces and does nothing else |
| SseStream.ErrorEventLooksLikeALine | apps/api/internal/httpx/apps.go:385-387 | the event that reports a failed stream reads like one more log line |
| SseStream.LineWriter.Write | apps/api/internal/httpx/apps.go:410-425 | emits one frame per completed line and keeps the rest |
| SseStream.LineWriter.IndexNewline | apps/api/internal/httpx/apps.go:435-442 | position of the first newline |
| SseStream.Stream | apps/cli/internal/client/client.go:179-193 | the scanning loop delivers the payloads of the data lines and fails exactly at a line that does not fit |
| Mail.EncodingIffDecodes | apps/api/internal/notify/notify.go:295-316 | the encoding of a byte string is the one text that the decoder of RFC 4648, section 4, maps to it |
| Mail.DecodeEncode | apps/api/internal/notify/notify.go:295-316 | decoding inverts encoding on every byte string |
| Mail.EncodeDecode | apps/api/internal/notify/notify.go:295-316 | nothing but encodings decodes |
| Mail.EncodedShape | apps/api/internal/notify/notify.go:295-316 | the output has four symbols per started group of three bytes, and padding in the last group alone |
| Mail.TableIsTheAlphabet | apps/api/internal/notify/notify.go:296 | the encoder's table is table 1 of RFC 4648 |
| Mail.SextetsConcatenate | apps/api/internal/notify/notify.go:297-314 | the four sextets side by side, most significant first, are the 24 bits of the three bytes |
| Mail.Base64Std | apps/api/internal/notify/notify.go:295-316 | the loop over groups of three computes that encoding |
| Mail.NormalForm | apps/api/internal/notify/notify.go:270-273 | no bare line feed is left, normalising again changes nothing, and bodies come out the same exactly when they differ only in line endings |

## Left out

- Kubernetes, Stripe, mail and database I/O: replaced by the state they hold and by fault parameters.
- Host slugs: the slug in a listener name is taken to be the host itself, so distinct hosts have distinct names; hash collisions are not modelled.
- Host normalisation: modelled for ASCII; Unicode case folding and spaces are not.
- RetryOnConflict's bound on retries: a step system may retry for ever or abandon at any point, which covers giving up after any number.
- Creating a shard: reading the primary and creating the clone are one step, and the cloned class and infrastructure settings are not part of the state.
- ReleaseService.Service.RecordRelease: the deploys and reconciliations of others happen between its listing and its commit as whole operations; finer interleavings are covered by the step system.
- GatewaySplit.OneShardIff: starts where every attach of the host under way has yet to look it up; from later stages on `SerialAttachesPlaceOnce` gives one direction, since two attaches about to merge into one shard can no longer split the host when neither has an attempt left.
- Metering.Meter.MeterUsage: the number of written records it returns is not modelled, since nothing in the protocol reads it; its error is a flag, and a failed listing of organizations is the tick that does not happen.
- Prices: the hourly cost in floating point is an input, rounded to micro-cents; orgHourlyCost and orgStorageHourlyCost are not part of this model.
- Egress metering: RecordEgress is not part of this model; its records appear as records of the egress dimension.
- Integer width: cents, micro-cents and revisions are unbounded; 64-bit overflow is not modelled, except in the shard index parser.
- Hour stamps and civil dates: both count from the year 0; earlier instants have neither here.
- Usage listings: pagination and newest-first order of usage records are not modelled; every sum here is independent of order.
- Line item labels and the currency: presentation only.
- UsageReport.Reporter.ReportUsage: the period start is a field that any step may move, including the rolling month of an organization without a period end; one reporter per organization; two reporters racing on one watermark are not modelled, and a missing subscription or item id is the single flag that turns the call into a no-op.
- Tokens: signature and expiry checks of the presented string are the claim a refresh is given; bcrypt, JWT signing and the access token are not part of this model.
- Webhook.Service.ProcessEvent: peek, apply and mark of one delivery are not interleaved with another delivery's; signature checks and payload parsing are not part of this model.
- Rollback of an app and app deletion: only the choice of the target release is modelled, not the rewriting of the app row.
- The in-memory store's missing rollback: transactions are atomic and roll back, as the store's interface promises for Postgres.
- The log stream's writer: a failing connection and flushing are not modelled; a char stands for a byte.
- Mail: header encoding around the base64 text, MIME parts and SMTP are not part of this model.

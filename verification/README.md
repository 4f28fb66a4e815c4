# CascadeRPC, modelled and proved in Dafny

CascadeRPC is a JSON-RPC load balancer. Every request is walked through a ranked list of provider
nodes, billed against a monthly quota per node, and retried elsewhere when a node fails; all the
while reloads replace the node set, a ranking loop reorders it, billing periods roll over, and the
counters are written to disk and read back. The project models that shared state and proves what
holds for every request, every reachable state and every interleaving.

`dafny verify dfyconfig.toml` checks the whole project.

| module | what it is about |
|---|---|
| `SlotMask` | the 64-bit mask of tried slots, and that it is a set |
| `Routing`, `Router`, `RoutingTheorems`, `RoutingLaw` | one request: its meaning on plain values, the loops that compute it, what holds over all rounds, and the law it obeys stated without either |
| `ByName`, `Recycling` | what of it holds by name, exactly when it does not, and the reloads that make it fail |
| `Billing` | one quota slot under every interleaving of checks, adds, resets and reloads |
| `Topology`, `Ranking`, `Publication`, `Requests` | slot allocation, the stable ranking, the lock protocol that publishes tables, and requests in flight across it |
| `Calendar`, `Periods`, `Client`, `Accounting` | Gregorian billing periods, one node's ledger, the client object with reload, load, rollover and restart, and a node's account over the life of the service |
| `Strays`, `Carryover` | the runs in which an account goes wrong, and a name's health across reloads |
| `UsageFile` | the atomic file write, with failures and crashes |
| `Registry`, `CostTable`, `Pricing` | method interning under compare-and-swap, compiled price tables, and what a request is billed from its bytes on |
| `Health`, `Upstream` | the latency average, penalties, and the response classifier that drives them |
| `Scanner` | the leading-method scanner and its exact language |

How the model is set up:

- A request runs against a *script*: for each round, the table read at its start and what every node
  would answer if asked (penalized or not, permit or not, rate-limit wait, counter value, how the
  attempt ends). Nothing relates one round to another, so a theorem over all scripts covers every
  reload, every concurrent request and every upstream. `Requests` then ties scripts to the tables
  that the publication protocol really publishes.
- Loops and in-place updates of the source are methods, classes and arrays here, each proved against
  a function or relation on values; the theorems are about those.
- Concurrent parts are step relations. A run is any sequence of states related by steps, and each
  main result is proved at every position of every run.

Where the code does less than one might expect, or disagrees with its comments, the code is what is
modelled:

- "At most once per request" and "everything was tried" hold by *slot*. By name they hold for nodes
  that stay in the configuration while the request runs (`Requests`). Over arbitrary tables
  `HonestByNameIff` and `AskedTwiceIff` say exactly when each of them fails: a slot changes hands, or
  a name changes slots, between two tables one request can read. `RecyclingHappens` and
  `MovingHappens` are runs of the publication protocol in which they do.
- `penalize` swaps the deadline instead of taking the later one: `SecondFailureSwaps` says exactly
  when a later failure shortens a cooldown, `CooldownCanShrink` gives one.
- A name first interned after a table was built is unpriced there even if the provider has a
  fallback price (`LateNameIsUnpriced`). The other way round, a request resolves its name once: if a
  reload lists the name while the request waits, the request is billed the new node's fallback and
  not the price listed (`NewPriceIsMissed`). `ChargesWrittenPriceIff` says exactly when a request is
  charged something else than what is written down.
- The comment on `period_start` says no accepted reset day can fail. The first days of the earliest
  January a date can have do; `PeriodStartIsAReset` gives the exact condition.
- An answer of exactly 2^32 - 1 microseconds leaves an unmeasured node unmeasured
  (`AnswerMeasuresUnless`); the 500 ms attempt deadline rules it out, and the bounds on the average
  assume smaller samples.
- Counters wrap at 2^64. `Billing` adds modulo 2^64, and `WrapsIff` gives the exact condition for a
  node: its threshold plus its permits at its highest price reach 2^64. An unmetered node at 100
  percent spillover is accepted and meets it (`UnmeteredNodeCanWrap`).
- An answer clears a penalty with a load and a separate store, so an answer older than a failure can
  wipe that failure's penalty out: exactly if it is between the two when the failure happens
  (`OldAnswerCanClearIff`, with a race in `OldAnswerClearsNewPenalty`).
- Requests, rollovers and flushes work on a node set they read earlier. If a reload gave a slot to a
  newcomer meanwhile, or a name left and came back on another slot, they charge, zero, forget or
  write down the wrong thing. `AccountHoldsIff` gives the exact condition; in `NewcomerIsHarmed` a
  newcomer is charged for the slot's last holder and then loses its own spend, in `MoverIsHarmed` a
  name's period moves on and the spend of the last one stays.
- Two flushes may land in either order, so a newer one can be replaced by an older one
  (`OlderFlushReplacesNewer`); what a restart then loses is still only the end of each account
  (`RestartsLoseTheLatest`).
- A reload copies each node's health before it publishes the copies. What an attempt reports to the
  old node after that is lost, so a failure can leave the published node unpenalized
  (`PenaltyIsLost`); `HealthCarriesOver` says exactly which observations count.

## Model

| member | source | states |
|---|---|---|
| SlotMask.MarkRefines | src/core/router.rs:191-246 | Setting the bit of a slot adds exactly that slot to the set the mask stands for, for every mask and all 64 slots |
| SlotMask.EmptyMaskRefines | src/core/router.rs:194 | The zero mask stands for no slot |
| SlotMask.IsTried | src/core/router.rs:221-225 | The mask test is set membership |
| SlotMask.MarkTried | src/core/router.rs:239 | The mask update is set insertion |
| SlotMask.SlotSetIsSmall | src/quotas/state.rs:14 | No set of slots has more than 64 members |
| Routing.ShortestWait | src/core/router.rs:248-253 | The shortest of all rate-limit waits met: one of them, none smaller, nothing exactly if none was met |
| Routing.FirstSaturated | src/core/router.rs:254-258 | The best-ranked saturated node: saturated, none before it, nothing exactly if none was met |
| Router.BookCost | src/core/router.rs:376-401 | The cost is added exactly when the counter is not above the threshold and the method is priced |
| Router.AdmitWithPermit | src/core/router.rs:365-371 | Without a token nothing is booked; with one the booking decides |
| Router.Serve | src/core/router.rs:237-264 | Admission, mark and attempt yield the specified verdict, tried set and booking, and an attempt is sent exactly for a booking |
| Router.VisitNode | src/core/router.rs:220-264 | One turn of the inner loop decides as the set-based meaning does |
| Router.WalkRound | src/core/router.rs:216-264 | The inner loop with its mask, running minimum, first saturated node and penalty flag computes the specified walk and its bookings |
| Router.FinishRound | src/core/router.rs:266-308 | Sleeping, parking, failing open or giving up happens as specified, and only the parked node is billed |
| Router.PlayRound | src/core/router.rs:203-309 | One round of the outer loop: report, tried set, return value, bookings and attempts |
| Router.Route | src/core/router.rs:185-310 | The whole retry loop on a bitmask refines the set-based meaning of the request; the attempts sent are exactly the bookings, in order |
| Router.SentToEach | src/core/router.rs:237-264 | The attempts sent are one for every booking, to the slot booked, in order |
| RoutingLaw.LawfulIsRoute | src/core/router.rs:185-401 | A complete law of a request, in what it meets and reports alone: what is said to every node (tried, penalized, saturated, rate-limited, refused exactly when the counter is above the threshold or the method is unpriced, attempted at the table's price), how every round ends (a sleep of the shortest wait; for the first busy node a 502 exactly on a closed semaphore, time out exactly on an abandoned wait, else its turn; fail-open; giving up), when another round follows, and when the client gets an answer, a 502 or a time-out; a run obeys it exactly if it is the one routing makes |
| RoutingLaw.AttemptIsACheck | src/core/router.rs:382-398 | An attempt is a check of the billing protocol that was enabled, at the price attempted; a refusal is one that was not |
| RoutingTheorems.WalkIsPointwise | src/core/router.rs:220-264 | In a table of distinct slots every node is judged as if it were alone, only the last attempt can settle the request, and the tried set grows by exactly the nodes that had their turn |
| RoutingTheorems.ExhaustedIff | src/core/router.rs:266-292 | A walk that was not settled gives up exactly when every slot of its table is in the tried set |
| RoutingTheorems.FellOpenMeans | src/core/router.rs:280-289 | Penalties are dropped only when every node without one has had its turn and nobody is rate-limited or saturated |
| RoutingTheorems.HonestBadGateway | src/core/router.rs:214-292 | 502 is answered on a closed semaphore and nothing else that a parked node may come to, or when every slot of the last table read had its turn in this very request; never with a node merely rate-limited, saturated or penalized |
| RoutingTheorems.TriedHadTurn | src/core/router.rs:237-304 | The tried set holds no slot that no round gave its turn |
| RoutingTheorems.OneAttemptOneBooking | src/core/router.rs:191-309 | Over all rounds and reloads no slot is booked twice, each booking is the node's price for the method, and there are at most 64 |
| RoutingTheorems.RequestChargesEachSlotOnce | src/core/router.rs:376-401 | Adding a request's bookings moves each attempted slot's counter by one price of the node attempted there, and no other counter |
| RoutingTheorems.RoundDecreases | src/core/router.rs:203-309 | A round that neither returns nor waits for a rate limit strictly decreases untried slots plus the unused fail-open |
| RoutingTheorems.RetryingIsBounded | src/core/router.rs:203-309 | At most 65 rounds go around at once, and all other rounds but the last waited for a rate limit |
| RoutingTheorems.RoundAt | src/core/router.rs:203-309 | Every round of a run is one round played from the tried set and flag the earlier rounds left |
| RoutingTheorems.OfferedInRankedOrder | src/core/router.rs:220-270 | In every round nodes are judged in ranked order, the request moves past a node only for a stated reason, and a sleep is the shortest wait met |
| RoutingTheorems.PenalizedOnlyAfterFailOpen | src/core/router.rs:227-289 | A node found penalized is let in only after an earlier round in which every other node had had its turn and none was rate-limited or saturated |
| ByName.HonestByNameIff | src/core/router.rs:214-292 | Over any tables of distinct slots and names: a 502 for want of nodes means every node of the last table had its own turn, for all answers and prices, exactly when no slot changes hands between two tables a request can read |
| ByName.AskedTwiceIff | src/core/router.rs:175-178 | Over any such tables: some request books a name twice exactly when the name is priced on two slots in turn and a request that tried the first can get to the second |
| ByName.PassedMeans | src/core/router.rs:203-309 | A round that is not the last one met a slot not tried before it |
| ByName.Booked | src/core/router.rs:382-400 | Every attempt of a run, on the walk or after parking, is booked at its price |
| ByName.BookedBy | src/core/router.rs:382-400 | Every booking of a run comes from an attempt of one of its rounds |
| Recycling.RecyclingHappens | src/core/topology.rs:119-123 | A run of the publication protocol in which a reload hands a failed node's slot to a healthy newcomer, and the request in flight ends in 502 without asking it |
| Recycling.MovingHappens | src/core/topology.rs:119-123 | A run with two reloads in which a node leaves and returns on another slot, and one request books it twice |
| Requests.InFlightIsValid | src/core/router.rs:204-214 | Whatever reloads and rankings land between its rounds, a request only walks tables with distinct slots |
| Requests.StayingNodeAskedOnce | src/core/router.rs:175-177 | A name that stays configured while a request runs is attempted and billed at most once, through every interleaving of reloads and rankings |
| Requests.StayingNodeHadItsTurn | src/core/router.rs:272-292 | Before a 502 for want of nodes, every name that stayed configured had its own turn |
| Requests.RankedApart | src/core/topology.rs:50-76 | No name and no slot comes twice in a published order |
| Billing.OverspendIsBounded | src/core/router.rs:328-401 | In every state of every run, from any counter and anything in flight, through reloads, resets and even wrapping, usage plus costs checked but not yet added stays within the highest threshold plus every owner's permits at its highest price, or within what it began with if that was more |
| Billing.AddKeepsInv | src/quotas/state.rs:27-29 | The atomic add keeps the bound, and wraps only if the bound or the first counter reaches 2^64 |
| Billing.WrapsIff | src/quotas/state.rs:27-29 | Some run of a node between reloads wraps exactly when its threshold plus its permits at its highest price reach 2^64 |
| Billing.NothingWrapsBelow | src/quotas/state.rs:27-29 | Through any number of reloads nothing wraps while the bound over all owners, and what it began with, stay below 2^64 |
| Billing.UnmeteredNodeCanWrap | src/provider/load_config.rs:53-58 | The accepted configuration of an unmetered node at 100 percent wraps |
| Billing.CheckKeepsInv | src/core/router.rs:382-396 | A check that passes keeps the bound, because everything pending is under a permit |
| Billing.PendingFitsInFlight | src/core/node.rs:258-273 | Costs in flight never exceed the permits at their owners' highest prices |
| Billing.MaxThresholdIsOwned | src/core/node.rs:218-220 | The threshold in the bound is some owner's own |
| Billing.ThresholdBelowLimit | src/core/node.rs:218-220 | The spillover threshold is the limit times the percentage, rounded down, and not above the limit |
| Billing.StaysWithinMonthlyLimit | src/core/node.rs:218-220 | Between reloads, from any state within the limit, with requests of replaced nodes still in flight, usage never passes the monthly limit and never wraps if the reserve covers the permits of every owner at its highest price |
| Billing.OwnReserveIsEnough | src/core/node.rs:218-220 | Once the requests of replaced nodes are done, the reserve the spillover percent leaves has to cover only the present node's permits at its highest price |
| Billing.BoundIsReached | src/core/router.rs:382-398 | The overspend bound is exact: a run reaches it |
| Topology.FindDuplicate | src/core/topology.rs:153-162 | A duplicate name is reported exactly when there is one |
| Topology.KeepSlots | src/core/topology.rs:167-191 | Survivors get their old slot, average and penalty; arrivals are collected in order; the taken slots are exactly the survivors' |
| Topology.NextFree | src/core/topology.rs:206-213 | The lowest slot not taken from a position on, or none exactly if all are |
| Topology.SlotsCannotRunOut | src/core/topology.rs:209-213 | With fewer holders than slots a free slot is left: the pigeonhole behind "cannot run dry" |
| Topology.GiveSlots | src/core/topology.rs:206-221 | Arrivals get the lowest free slots in order, those counters and no others are zeroed, and the error exit is not taken |
| Topology.AssignIds | src/core/topology.rs:141-224 | Accepted exactly for at most 64 distinct names; then slots are distinct, survivors keep theirs with average and penalty, arrivals take the lowest free ones in order and start at zero, and no other counter moves; a rejected set changes nothing; a reported duplicate is one; "out of slots" is never returned |
| Topology.AssignedIsUnique | src/core/topology.rs:141-224 | Those rules fix every slot and every counter |
| Topology.ConfiguredAsWritten | src/core/topology.rs:170-216 | After a reload every node has the name, tier and reset day just configured; a survivor has its old slot, average and deadline, an arrival a slot below 64 and the health it came with |
| Topology.SurvivorUntouched | src/core/topology.rs:170-188 | A surviving name keeps slot, usage, average and penalty |
| Topology.ArrivalStartsAtZero | src/core/topology.rs:208-216 | An arriving name starts on a zeroed counter below slot 64 |
| Ranking.RankIsRanking | src/core/topology.rs:70-76 | The ranking loses and adds no node and orders them by tier, then latency, ties in configured order |
| Ranking.RankingIsUnique | src/core/topology.rs:66-76 | There is only one such order, so any stable sort computes it |
| Ranking.SmallerKeyStandsAhead | src/core/topology.rs:57-76 | A lower tier, or the same tier and a lower latency, stands ahead |
| Ranking.TiesStandAsWritten | src/core/topology.rs:66-68 | Nodes of one tier and latency stand in configured order |
| Ranking.UnmeasuredRanksLast | src/core/node.rs:80-87 | An unmeasured node stands behind every measured node of its tier |
| Publication.NextKeepsInv | src/core/ranking.rs:66-101 | Every step of reloads, ranking rounds, readers, bookings and health updates keeps the protocol's invariant |
| Publication.NoLostReload | src/core/rpc.rs:105-115 | In every state of every interleaving the published set is that of the last committed reload, its order is the stable ranking of that set, and every table read was published whole |
| Publication.TablesOnlyAccumulate | src/core/rpc.rs:97-115 | Published tables and committed sets only accumulate |
| Publication.ReadersSeeWholeTables | src/core/topology.rs:44-55 | What a lock-free reader holds is one whole table, ranked from its own set, with distinct names and slots |
| Publication.ReadersWalkByTier | src/core/topology.rs:57-76 | In whatever table a reader holds, nodes of a lower tier come first |
| Publication.CommitReadsTheNodes | src/core/topology.rs:70-76 | A table is ordered by the tiers and averages its nodes had when it was published |
| Publication.NameKeepsSlotAndSpend | src/core/topology.rs:119-123 | Through every interleaving of reloads a name that stays keeps its slot, and its counter moves by exactly what was billed and what period resets took off |
| Calendar.PeriodStartIsAReset | src/quotas/period.rs:61-77 | Succeeds exactly outside the first days of the earliest January (and for a reset day above zero), and is the reset date of this month or the one before |
| Calendar.PeriodHoldsToday | src/quotas/period.rs:61-72 | Today lies on or after its period start and before the next reset date |
| Calendar.PeriodStartIsLatest | src/quotas/period.rs:46-72 | The start is a reset date (the reset day, or the last day of a month that lacks it), not after today, and no later reset date is |
| Calendar.PeriodStartInDays | src/quotas/period.rs:61-77 | The start's day is the reset day if its month has that many days and the month's last day otherwise, in today's month exactly if today has reached it and in the month before otherwise |
| Calendar.MonthLengths | src/quotas/period.rs:74-77 | The lengths of the twelve months |
| Calendar.PeriodStartMonotone | src/quotas/period.rs:61-72 | Later dates have the same or a later start |
| Calendar.PeriodStartIdempotent | src/quotas/period.rs:61-72 | A period's first day starts that period |
| Calendar.ConsecutiveResets | src/quotas/period.rs:49-77 | Consecutive reset dates are 28 to 31 days apart for every reset day and month |
| Calendar.SuspiciousJumpIff | src/quotas/period.rs:25-27 | Two reset dates are more than 62 days apart exactly when three or more boundaries lie between them |
| Client.WarnsOfThreePeriods | src/quotas/period.rs:118-124 | The warning the rollover raises fires exactly when three or more period boundaries were crossed, for a node that kept its reset day |
| Calendar.OrderIsDayOrder | src/quotas/period.rs:114-119 | Comparing dates field by field is comparing day numbers |
| Calendar.FourCenturies | src/quotas/period.rs:74-77 | The month lengths in use add up to the Gregorian cycle of 146097 days in any 400 years |
| Calendar.ShortFebruary | src/quotas/period.rs:49-51 | In every year a reset day past the end of February falls on its last day, 28 or 29 |
| Calendar.JanuaryReachesBack | src/quotas/period.rs:64-65 | Before the reset day in January the period began in the December before |
| Calendar.EarliestJanuaryFails | src/quotas/period.rs:57-61 | An accepted reset day and a date, in the year -9999, for which no period start exists |
| Periods.ResetExactlyOnce | src/quotas/period.rs:104-140 | For any sequence of bookings and clock readings, backwards ones included, the marker is the latest start seen and the counter is the starting usage plus all bookings, or exactly the bookings since the first reading of that start |
| Periods.UntrackedAdoptsThenExactlyOnce | src/quotas/period.rs:133-138 | An untracked node adopts the first period it sees without a reset and is accounted for from then on |
| Periods.ResetExactlyOnceFromAny | src/quotas/period.rs:104-140 | The same for every first ledger, tracked or not |
| Periods.RollIdempotent | src/quotas/period.rs:87-89 | Repeating a tick changes nothing |
| Periods.RollsCommute | src/quotas/period.rs:114-117 | Two readings with nothing booked in between may come in either order |
| Client.RpcClient.New | src/core/rpc.rs:73-89 | A client is built exactly for an acceptable set, every counter at zero |
| Client.RpcClient.Reload | src/core/rpc.rs:105-115 | Publishes exactly the acceptable sets with their slots assigned and names, tiers and reset days as configured; a rejected one changes nothing |
| Client.RpcClient.Bill | src/quotas/state.rs:24-29 | Adds modulo 2^64 to one counter and moves no other |
| Client.RpcClient.LoadQuotas | src/core/rpc.rs:133-142 | Each node is seeded by name from its line, a node without one is left alone, and no other counter moves |
| Client.RpcClient.RollNode | src/quotas/period.rs:104-140 | One node's ledger rolls over, no other counter or marker moves, and the warning is raised exactly for jumps over 62 days |
| Client.RpcClient.RollOver | src/quotas/period.rs:95-146 | Every node of the given set rolls over once, markers of other names are forgotten, nothing else moves |
| Client.PruneKeepsLedgers | src/quotas/period.rs:142-145 | Forgetting markers leaves every node of the set its ledger and keeps no other name |
| Client.SnapshotNames | src/quotas/persistence.rs:79-101 | A name has a line exactly when it has a node and that node has a period |
| Client.SnapshotLine | src/quotas/persistence.rs:79-101 | A node's line is its own counter and period, wherever its slot is |
| Client.Boot | src/main.rs:44-50 | A client is built exactly for an acceptable set, with every node on its line of the usage file, or at zero without one |
| Client.Restart | src/main.rs:44-55 | A fresh client over the configured set, seeded and rolled over, gives each node its seeded ledger rolled to today |
| Client.RestartRoundTrip | src/quotas/persistence.rs:79-101 | Snapshot, restart, load and rollover return each flushed name its usage and period, or zero past a boundary; a new name, and one that had no period yet, starts at zero |
| Client.LostResetIsRedone | src/quotas/period.rs:87-89 | A reset lost to a crash before the flush is redone to the same ledger |
| Accounting.AccountHoldsIff | src/quotas/period.rs:95-146 | From any position on at which a name is configured to stay, its ledger in memory, in the file and in every snapshot in flight is at every moment what its own remembered bookings and clock readings make of it, through any interleaving of bookings, reloads, snapshots, landings, restarts and rollovers, exactly as long as no action harms the name; harm is read off the state before the action |
| Accounting.EveryNodeResetsExactlyOnce | src/main.rs:91-121 | At every moment of a run up to which nothing harmed it a name, in the file or not, tracked or not, has been reset exactly once per period reached |
| Accounting.AlwaysListedIsUnharmed | src/quotas/period.rs:91-94 | Nothing harms a name configured throughout, although requests, rollovers and flushes work on sets replaced meanwhile |
| Accounting.ReadWhileListedIsNoStray | src/main.rs:112-121 | A request, rollover or flush that read its set while the name was there does not stray onto it |
| Accounting.BillMeans | src/core/router.rs:382-398 | A booking moves the name's ledger by its own bookings, exactly unless it is for another node on its slot or for itself on another slot, at a price above zero |
| Accounting.TickDoes | src/quotas/period.rs:113-139 | A node's turn in a rollover zeroes by slot and moves the marker by name, so the two part when name and slot do |
| Accounting.TickMeans | src/quotas/period.rs:113-139 | It is the name's own reading exactly unless name and slot part, the ticked period moved on and the counter is not zero |
| Accounting.ForgetMeans | src/quotas/period.rs:142-145 | Pruning drops a node's marker exactly when the set it read did not list the node |
| Accounting.SnapHolds | src/main.rs:146-158 | A snapshot holds the counter of the slot the set it read has the name on, or nothing |
| Accounting.SnapMeans | src/main.rs:146-158 | That is the name's own ledger, or rightly nothing, exactly unless it has a period and that set did not list it or had it on a slot with another counter |
| Accounting.ArrivalMeans | src/core/topology.rs:208-216 | A name that arrives by a reload starts at zero with the marker an earlier stay left |
| Accounting.RestartsLoseTheLatest | src/quotas/period.rs:87-89 | The ledger before a restart is the ledger after it carried through the end of its history, always so for a name in step with its file; any other restart gives back something on disk or in flight before the account began |
| Accounting.SlotIsKept | src/core/topology.rs:119-123 | All sets one process publishes list a name that stays under one slot |
| Strays.NewcomerIsHarmed | src/quotas/period.rs:126-129 | A run in which a newcomer on a recycled slot is charged by a request for the last holder and zeroed by its rollover |
| Strays.MoverIsHarmed | src/quotas/period.rs:126-129 | A run in which a name that came back on another slot has its period moved on without a reset, and the wrong counter written down |
| Strays.OlderFlushReplacesNewer | src/main.rs:77-104 | A run in which the flush taken first lands last and a restart loses what was on disk |
| Carryover.StepVitals | src/core/topology.rs:176-187 | An observation counts for a name exactly if it is made on the newest node built for it, and no other step moves the name's average or deadline |
| Carryover.HealthCarriesOver | src/core/topology.rs:130-134 | Through every interleaving a name's health is what was last observed on the newest node of the moment |
| Carryover.PublishedIsNewest | src/core/rpc.rs:105-115 | Between reloads that is the published node |
| Carryover.PenaltyIsLost | src/core/topology.rs:180-187 | A run in which a failure after the copy leaves the published node unpenalized |
| UsageFile.NextKeepsInv | src/quotas/persistence.rs:127-142 | Every step of any number of writers, any failure and any crash keeps the target safe |
| UsageFile.NeverHalfWritten | src/quotas/persistence.rs:103-123 | At every moment the file holds its first content or one write's complete bytes, and a finished or cleaned-up write leaves no temp file |
| UsageFile.ChangesWhole | src/quotas/persistence.rs:127-133 | The content changes only by a rename to one write's complete bytes or by a crash back to an entry it has had |
| UsageFile.FinishedWriteIsDurable | src/quotas/persistence.rs:133-139 | Once a write is renamed and the directory synced with no crash in between, at every later moment of the run the file holds its bytes or those of a write renamed after it |
| Registry.HashName | src/protocol/registry.rs:160-168 | The hashing loop computes the byte-wise hash of the whole name |
| Registry.HashOfEth | src/protocol/registry.rs:160-168 | The hash of `eth`, as a number |
| Registry.FindId | src/protocol/registry.rs:105-118 | With that hash, hashing, scanning and confirming find the name's position in the list |
| Registry.Extend | src/protocol/registry.rs:84-100 | One pass of the closure appends the names not yet carried, in order, with their hashes, and moves no entry |
| Registry.LookupRefinesNameList | src/protocol/registry.rs:105-118 | For any hash function lookup is the name's position in the list of distinct names |
| Registry.ResolveInjective | src/protocol/registry.rs:131-139 | Two names share an id only if both are unknown |
| Registry.ResolveStable | src/protocol/registry.rs:77-101 | An id stays the id of the same name in every later table |
| Registry.NoNameIsLost | src/protocol/registry.rs:81-101 | In every race of registrations no finished one has lost a name and each published table extends all earlier ones |
| Registry.IdKeepsItsMeaning | src/protocol/registry.rs:46-51 | An id resolved at any moment of a race means that method and no other at every later moment |
| CostTable.PriceRouting | src/protocol/cost_table.rs:67-82 | The first loop stores each listed built-in's price and leaves the fallback everywhere else, slot 0 included |
| CostTable.PriceCustom | src/protocol/cost_table.rs:84-90 | The second loop stores the custom prices and leaves the built-in slots alone, whatever else is interned meanwhile |
| CostTable.New | src/protocol/cost_table.rs:59-95 | For every spec, iteration order and racing registration the result is the compiled table of the registry it was sized for |
| CostTable.PricesMeanTheList | src/protocol/cost_table.rs:55-107 | At every later moment the cost of a resolved name is its routing price, its custom price, the fallback, or unpriced if interned later |
| CostTable.FallbackSlotIsTheFallback | src/protocol/cost_table.rs:72-77 | No name writes slot 0 |
| CostTable.LateNameIsUnpriced | src/protocol/cost_table.rs:97-107 | A name interned after the build costs the fallback before and is unpriced after |
| Pricing.ChargesWrittenPriceIff | src/protocol/cost_table.rs:59-107 | Whether a table was built before or after a name was resolved, what it charges for the id is known, and is the price written down exactly unless the name was resolved before it was interned and is listed at another price than the fallback, or was interned by another list in between and is left to a fallback |
| Pricing.RequestCostsTheList | src/core/router.rs:162-214 | Every booking of a request whose body scans to a name costs what the price list of the node billed says for it, whenever the node's table was built, exactly unless the request misses the price at that node; a node whose table does not price it is not billed |
| Pricing.NewPriceIsMissed | src/core/reload.rs:53-72 | A request that resolved a name, then waited while a reload interned it and listed it at 5, is billed the fallback of 1 |
| Pricing.PublishedAreComparable | src/protocol/registry.rs:81-101 | Of any two tables the registry has published one extends the other |
| Health.NodeHealth.ObserveAnswer | src/core/node.rs:318-345 | Folds one sample into the average and clears the penalty |
| Health.NodeHealth.Penalize | src/core/node.rs:363-376 | Swaps in the new deadline and leaves the average alone |
| Health.EmaBounded | src/core/node.rs:318-328 | Over any samples, onto no average or a copied one, the average stays between smallest and largest, so it never saturates or reads as unmeasured |
| Health.EmaMonotoneInSamples | src/core/node.rs:318-328 | Raising samples, or the average they are folded onto, never lowers the average |
| Health.ConstantSampleStep | src/core/node.rs:321-326 | Under a constant sample the average stands still exactly when the two agree but for three bits, and otherwise moves towards it without passing it |
| Health.EmaConverges | src/core/node.rs:75-78 | Under a constant sample the average comes within 7 microseconds in finitely many steps and stays |
| Health.RacingAnswersOnlyLoseSamples | src/core/node.rs:314-328 | Under every interleaving of loads and stores the average is that of some stored answers, each counted once, folded onto what the node was built with; it stays within their bounds and reads as unmeasured only if it was built so and nothing is stored |
| Health.AnswerMeasuresUnless | src/core/node.rs:319-326 | An answer leaves a node unmeasured exactly if it was and the sample spells the sentinel |
| Health.FirstAnswerIsTheAverage | src/core/node.rs:319-323 | The first answer of m microseconds leaves the average at m, as far as it fits |
| Health.AnswerWeighsAnEighth | src/core/node.rs:324-326 | Every later answer weighs one eighth, up to the bits cut off |
| Health.AverageOfAnswers | src/core/node.rs:302-312 | The average depends on the served requests and on what the node was built with, and on nothing else |
| Health.PenaltyInRealTime | src/core/node.rs:363-371 | A failure keeps the node out for the seconds asked for, no fewer than 5 and no more than 300, in real time, and at most one more, despite the truncated clock |
| Health.FailureKeepsNodeOut | src/core/node.rs:298-376 | The same after any history, with any number of rejections since |
| Health.SecondFailureSwaps | src/core/node.rs:370-371 | A later failure shortens the cooldown exactly when its own ends sooner and still fits the clock |
| Health.CooldownCanShrink | src/core/node.rs:370-371 | A cooldown of 300 seconds cut to a few by a later failure |
| Health.AnswerClearsPenalty | src/core/node.rs:330-337 | In a plain history an answer clears any penalty |
| Health.DeadlineIsLinearizable | src/core/node.rs:335-371 | Under every interleaving of loads, stores and swaps the deadline is that of a plain history, with each answer at its store or at a load that found nothing set |
| Health.EachAnswerCountsOnce | src/core/node.rs:335-337 | An answer takes effect once, at the move that settles it |
| Health.LinearizedCountsAnswers | src/core/node.rs:335-337 | The plain history has one event for every answer settled and none for the others |
| Health.OldAnswerCanClearIff | src/core/node.rs:335-371 | A failure's penalty can be wiped out by an answer that loaded no deadline since, exactly if some answer is between its load and its store when the failure happens |
| Health.LastFailureStandsUnlessCleared | src/core/node.rs:335-371 | After the last failure the deadline is that failure's own until an answer stores zero, and zero from then on |
| Health.OldAnswerClearsNewPenalty | src/core/node.rs:335-337 | A race in which an answer that loaded an old deadline wipes out a newer one |
| Health.OnlyAnswersMeasure | src/core/node.rs:309-312 | A node that never served a request is unmeasured, whatever it rejected or failed |
| Health.RejectorRanksBehindMeasured | src/core/topology.rs:70-76 | Such a node ranks behind every measured node of its tier |
| Upstream.ClassifyResponse | src/core/upstream.rs:85-227 | Each path out returns the specified attempt and label and has told the node's health exactly what was ruled |
| Upstream.ClassifyIsTheLaw | src/core/upstream.rs:119-227 | The ruling is the one that obeys the law of replies, in statuses, sizes and codes: whether the client is answered, what the node is told, and under which label |
| Upstream.FinalStatusesAre | src/core/upstream.rs:252-262 | The 26 final statuses, and that a success is a 2xx |
| Upstream.ReplyMovesHealth | src/core/upstream.rs:119-227 | A good reply folds the round trip in and clears the deadline, a refusal leaves both alone, any other sets a deadline of 5 to 300 seconds, as asked on a 429, and leaves the average alone |
| Upstream.RulingsPartition | src/core/upstream.rs:110-227 | A served request measures the node, a refused one says nothing, every other reply penalizes it; the client gets an answer exactly when there is one to hand over |
| Upstream.RetryAfterHeardOn429Only | src/core/upstream.rs:122-128 | Retry-After counts exactly on a 429 whose body arrived |
| Upstream.FinalStatusBlamesTheRequest | src/core/upstream.rs:243-262 | Final statuses are client errors other than 401, 403 and 429 |
| Upstream.RequestErrorCodes | src/core/upstream.rs:264-275 | The final error codes are exactly the request errors of section 5.1 of the JSON-RPC 2.0 specification |
| Upstream.LabelsPartition | src/core/upstream.rs:80-84 | The outcome label determines the ruling, except for forwarded HTTP errors |
| Upstream.NeverServedNeverMeasured | src/core/upstream.rs:148-153 | Any sequence of replies that served nothing leaves the node unmeasured |
| Scanner.ScansExactly | src/core/router.rs:431-461 | A name is returned exactly when the body is whitespace, brace, whitespace, `"method"`, whitespace, colon, whitespace, that name quoted, and any tail |
| Scanner.ScansExactlyThisText | src/core/router.rs:431-461 | The same language in characters: spaces, tabs, line feeds and carriage returns around `{`, `"method"` and `:`, then the quoted UTF-8 form of a text without quote or backslash |
| Scanner.PrintScansBack | src/core/router.rs:431-461 | Any plain name with any whitespace and tail scans back |
| Scanner.ScannedWasPrinted | src/core/router.rs:431-461 | Every accepted body is the printed form of the name it scanned to |
| Scanner.PrintIsUnambiguous | src/core/router.rs:431-445 | However it is laid out, a body is the printed form of one name at most |
| Scanner.SkipSpace | src/core/router.rs:448-455 | Drops exactly the leading JSON whitespace |
| Scanner.FindDelimiter | src/core/router.rs:438 | The first quote or backslash, or none |
| Scanner.EncodedIsUtf8 | src/core/router.rs:444 | Every encoded sequence of Unicode scalar values passes the UTF-8 check |
| Scanner.Utf8IsEncoded | src/core/router.rs:444 | Whatever passes the UTF-8 check is the encoding of some sequence of scalar values |

## Left out

- HTTP, TLS, sockets, signals, shutdown, metrics and logging; attempts are inputs that end in an answer, a retryable failure or a drop.
- The global time budget as a clock: it is cancellation, allowed at every await (the script ends, an attempt is dropped, a parked request gives up).
- The rate limiter, the semaphore and the atomic reference as libraries: a wait or a token per visit, a permit count per node, and a published value. Fairness among waiting requests is not modelled.
- Atomics read the latest value; stale relaxed reads are not modelled.
- `serde_json` parsing, the `"error"` substring search and Retry-After parsing: their results are inputs of the classifier. A body the scanner turns down is not modelled further.
- The 116 literal method names: any table injective on the names it knows, with ids below 117 and 0 for unknown names.
- Reading configuration and pricing files: the model starts from a finished price list and node list.
- Turning a clock reading into a date; a rollover takes the date.
- The listing behind `/health`, the gauges, and the count of available nodes a ranking round returns: easy members only.
- Ranking.RankIsRanking: the library's sort is modelled by an insertion sort on values over one snapshot of the keys (any stable sort gives the same result); keys that change while they are being sorted are not modelled.
- Publication.NameKeepsSlotAndSpend: bookings are plain additions here and in `Accounting`, without the 64-bit wrap; `Billing` proves exactly when an addition wraps.
- Publication.NoLostReload: assigning slots is one step under the lock. In the code a newcomer's counter is zeroed before the new table is published, so a request still on the old table may bill the slot in between or later; `Accounting` counts such a booking as harm to the newcomer, and `Billing` bounds what all owners of a slot can add to it.
- Accounting.EveryNodeResetsExactlyOnce: reading and zeroing a counter is one step per node (the value read is only logged); that a flush lands whole or not at all is proved in `UsageFile`.
- Health.NodeHealth.ObserveAnswer: one step; the races of its loads and stores are proved on their own, for the average and for the deadline, not for the two together.
- Health.PenaltyInRealTime: the instant compared is the one the request was stamped with, which is the one the code passes down.
- Client.Restart: does not model file parsing; the usage file is a map from names to usage and period.

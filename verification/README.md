# A verified model of Atlas

Atlas measures how far people in Korea live from post offices, banks and other everyday services. This project models the parts
of it whose correctness is not visible from one function: the walking-distance search, the suggestions for closing and opening
offices, the job queue, the bank crawl, the monthly migration table, and three small machines (the page poller, the holiday
calendar, the job scheduler). Distances and weights are exact reals, metres or persons; times and coordinates are integers.

`dafny verify dfyconfig.toml` checks everything.

## The parts

* **Walking distances** (`Walks`, `NearestLists`, `KSource`, `RoadGraph`, `NearestPoints`). `Walks` and `NearestLists` say what a
  right answer is, with no reference to any algorithm: a facility's distance is the least length of a walk from one of its seeds,
  and a list is right if it holds the nearest facilities within the limit, each at its distance, and is short only when it holds
  all there are. `KSource` is the one-heap search with its pruning, proved against that; `RoadGraph` shows that compressing the
  road segments changes no distance; `NearestPoints` carries the answer from vertices to points off the graph.
* **Placement** (`OpenSites`, `CloseFacilities`, `ShortLists`, `TopLists`). Greedy opening against every other choice of sites;
  greedy closing with its index by facility and its one-pass table, each against the plain definition; what its totals are worth
  when an area's list runs out; and closing over the eight nearest facilities against closing over all.
* **Job queue** (`Jobs`, `JobStore`, `JobWorker`, `JobRuns`, `JobRecalculation`, `JobExamples`). `Jobs` gives each SQL statement
  as a function on the job table, `JobStore` the queue functions as methods of a class, `JobWorker` one execution and one schedule
  tick on top of them. `JobRuns` lets workers, crashes, late heartbeats, cancellations and the statements of the reaper's
  transaction interleave freely and proves what holds in every reachable state and over every run; `JobRecalculation` says exactly
  which committed data get their recalculation; `JobExamples` holds three complete runs.
* **Bank crawl** (`BankCrawl`). The quadtree crawl as a class, over any faithful search service, any fate of its calls and any
  rounding of the middle of a rectangle.
* **Migration month** (`MonthMoves`, `MonthFetch`). Partial sums by page, and the fetch in any order of completion with any failures.
* **Small machines** (`Poller`, `Holidays`, `Scheduler`).
* `Options` and `FiniteSets` are shared vocabulary.

## What the proofs brought to light

* `try_enqueue_slot` says in its comment that it skips when the same kind is waiting or running
  (`atlas/atlas/jobs/queue.py:62`). Since `db/migrations/V23__job_queued_unique.sql` only a waiting job of the kind blocks; a
  running one does not. The model follows the code.
* "No recalculation is lost" is a promise about the attempt that chains. If a worker dies after its collector has committed changed
  data and before the recalculation is enqueued, the retry may find nothing changed and be recorded DONE with no calculation ever
  enqueued (`JobExamples.RetryCanForget`). `JobRecalculation.CommitCarriedIff` gives the exact condition for every commit of every
  run, whatever becomes of the attempt: the data have their recalculation if and only if a calculation waits at the commit or is
  put into the queue afterwards.
* The reaper's requeue hits the index of queued jobs exactly when a stale row with attempts left meets a job of its kind that was
  inserted after the reaper's first statement (`JobRuns.ReapAbortsOnlyOnSlip`). It can happen (`JobExamples.RequeueCanAbort`); left
  alone the reaper never fails (`JobRuns.ReapUninterrupted`, `Jobs.ReapedAloneIsSafe`).
* The fence is the worker's name, not the attempt. A heartbeat still on its way when the same worker claims the job again counts for
  the new attempt (`JobExamples.LateBeatCanCount`; exactly when, `JobRuns.LateBeatCountsIff`); it never reaches a job that another
  worker claimed last (`JobRuns.BeatsReachOnlyOwnClaims`).
* The greedy closing skips an area whose last listed facility closes (`atlas/atlas/domain/placement.py:41-43`). With lists that run
  out a later step can then cost less than an earlier one and both totals are off (`ShortLists.ShortListsMislead`), by exactly what
  was skipped (`ShortLists.TotalsButLost`). Before the call it is enough that every weighted area with a list has more facilities
  on it than may be closed, or one that is no candidate (`ShortLists.LastingListsSuffice`); when all candidates may be closed the
  latter is also necessary (`ShortLists.FullClosingTrueWhenOthers`).
* A holiday entry with an empty name makes no day a holiday (`atlas/atlas/domain/calendar.py:17-20`).

## Model

| member | source | states |
|---|---|---|
| `KSource.KNearest` | atlas/atlas/walk/ksource.py:15-47 | for non-negative arcs and any k of at least 1 every vertex gets the right list: distinct facilities, nearest first, each at its true distance, short of k only if no other is within the limit; with positive arcs ties stand by facility number |
| `KSource.FullGoesOn` | atlas/atlas/walk/ksource.py:32-46 | why pruning is safe: an offer dropped at a full vertex is settled at every next vertex too, so it belongs to no answer further on |
| `KSource.SkipKeepsInv` | atlas/atlas/walk/ksource.py:28-33 | a popped item at a full vertex, or for a facility already labelled there, may be dropped |
| `KSource.AcceptKeepsInv` | atlas/atlas/walk/ksource.py:34-37 | the first pop of a facility at a vertex is final: appending its label keeps everything the search relies on |
| `KSource.RelaxKeepsInv` | atlas/atlas/walk/ksource.py:38-46 | after one arc, pushed or left out by the limit or by pruning, what that label offers over the arc is taken care of |
| `KSource.WalkSettled` | atlas/atlas/walk/ksource.py:27-46 | when the heap is empty, whatever any walk within the limit offers is settled at its end |
| `KSource.DoneIsNearest` | atlas/atlas/walk/ksource.py:27-47 | when the heap is empty the labels are the right list of every vertex |
| `KSource.Expand` | atlas/atlas/walk/ksource.py:28-46 | one turn of the loop keeps the invariant and either uses up one of the n times k places or only shrinks the heap |
| `KSource.PushNeighbours` | atlas/atlas/walk/ksource.py:38-46 | the loop over a row relaxes every arc of the newest label |
| `KSource.Record` | atlas/atlas/walk/ksource.py:34-37 | the arrays show the label just accepted, and no other entry changes |
| `NearestLists.LabelCount` | atlas/atlas/walk/ksource.py:5-6 | a right list has min(k, number of facilities within the limit) labels |
| `NearestLists.DistancesUnique` | atlas/atlas/walk/ksource.py:24-46 | all right lists of a vertex show the same distances, however ties were broken |
| `NearestLists.LabelsUnique` | atlas/atlas/walk/ksource.py:24-46 | with ties by facility number there is one right list, whatever the order of the seeds |
| `RoadGraph.CsrShape` | atlas/atlas/walk/graph.py:166-180 | the rows are sorted, without loops or duplicates, symmetric, and keep for each pair of vertices the shortest parallel segment |
| `RoadGraph.CsrHoldsKept` | atlas/atlas/walk/graph.py:178-180 | the row pointers delimit exactly the kept arcs of each origin |
| `RoadGraph.LexSortSorts` | atlas/atlas/walk/graph.py:173 | the arcs stand by origin, then destination, then length |
| `RoadGraph.FirstsRepresent` | atlas/atlas/walk/graph.py:175-177 | every arc is represented by a kept one that is not longer |
| `RoadGraph.RowsWalkNotLonger` | atlas/atlas/walk/graph.py:166-180 | every walk over the segments has one over the rows that is not longer |
| `RoadGraph.MetricPreserved` | atlas/atlas/walk/graph.py:166-180 | the least length between any two vertices is the same over the rows as over the segments |
| `RoadGraph.NearestOverRoads` | atlas/atlas/walk/graph.py:166-180 | a list that is right over the rows is right over the segments |
| `NearestPoints.NearestK` | atlas/atlas/walk/compute.py:53-65 | each point's row holds exactly the k nearest facilities by facility snap, path and point snap within the limit; a point too far from the graph has none; valid entries come first, without gaps |
| `NearestPoints.CutIsNearest` | atlas/atlas/walk/compute.py:62-64 | adding the point's snap to the vertex's list and cutting at the limit gives the right list for the point |
| `NearestPoints.RowIsRight` | atlas/atlas/walk/compute.py:53-65 | the masked row is right for snapped facilities, and empty beyond the snap limit |
| `NearestPoints.FillRow` | atlas/atlas/walk/compute.py:62-64 | one row is copied, shifted and blanked where it is missing or too far, and no other row changes |
| `OpenSites.GreedyOpen` | atlas/atlas/domain/placement.py:76-104 | each step opens the best site of its moment by gain, newly near weight and code, and counts the areas it brings nearer; it stops early only when no site gains |
| `OpenSites.PickBest` | atlas/atlas/domain/placement.py:83-98 | the pick is the greatest by that key among the sites not picked, with its true numbers |
| `OpenSites.GainIsDrop` | atlas/atlas/domain/placement.py:87-102 | a site's gain is exactly the drop of the weighted total distance, and its newly near weight what comes within far |
| `OpenSites.SiteGainFalls` | atlas/atlas/domain/placement.py:87-91 | opening other sites never makes a site worth more (diminishing returns) |
| `OpenSites.OpenGainsNothing` | atlas/atlas/domain/placement.py:85-86 | a site already open gains nothing, so leaving it out loses nothing |
| `OpenSites.GapShrinks` | atlas/atlas/domain/placement.py:82-103 | each step closes at least one k-th of the distance to any choice of at most k sites |
| `OpenSites.GreedyBound` | atlas/atlas/domain/placement.py:76-104 | the total gain is at least 1 - (1 - 1/k)^k times that of any choice of at most k sites |
| `OpenSites.StoppedIsBest` | atlas/atlas/domain/placement.py:97-98 | after an early stop no choice of sites whatever saves more |
| `OpenSites.TotalsAreTrue` | atlas/atlas/features/plan/service.py:166-180 | the summed gains and newly near weights are the true change from before to after |
| `OpenSites.LowerBy` | atlas/atlas/domain/placement.py:101-102 | the distances after a step are those of the areas taken at the lesser of old and new |
| `CloseFacilities.GreedyClose` | atlas/atlas/domain/placement.py:24-55 | each step closes the candidate that costs least over all areas, ties to the smaller number, and reports the number of areas that go to another distance; the steps end only at k or when every candidate is closed, and with k at least the number of candidates all are |
| `CloseFacilities.TouchedAreMoved` | atlas/atlas/domain/placement.py:39-46 | the number of areas affected is that of the areas served before and after at different distances, whatever is closed already |
| `CloseFacilities.BuildIndex` | atlas/atlas/domain/placement.py:26-29 | the index lists under a facility the areas that name it, in their order |
| `CloseFacilities.IndexIsEnough` | atlas/atlas/domain/placement.py:39-46 | summing over the index equals summing over all areas, whatever is closed already |
| `CloseFacilities.FirstOpenIs` | atlas/atlas/domain/placement.py:17-21 | the distance found is that of the nearest open facility of the list, and missing exactly when all are closed |
| `CloseFacilities.TopIsExact` | atlas/atlas/features/plan/service.py:3-5 | with at most seven closed, the eight nearest give the same nearest open facility as the full list |
| `TopLists.SameGreedy` | atlas/atlas/features/plan/service.py:3-5 | up to seven steps are greedy over the eight nearest exactly when they are greedy over the full lists |
| `TopLists.PlanClose` | atlas/atlas/features/plan/service.py:85-98 | closing up to seven and the table of single closings, computed over the eight nearest, are those of the full lists, areas affected included; if these last, the totals are true over them and no step is cheaper than an earlier one |
| `CloseFacilities.TotalGrows` | atlas/atlas/domain/placement.py:34-46 | closing a facility costs no less when another is closed already, as long as every weighted area with a list is still served |
| `CloseFacilities.StepCostsRise` | atlas/atlas/domain/placement.py:30-54 | as long as every weighted area with a list keeps an open facility on it, the costs of the steps never fall from one step to a later one |
| `CloseFacilities.TotalsAreTrue` | atlas/atlas/features/plan/service.py:129-130 | under the same condition the summed costs and newly far weights are the change of total weighted distance and of the weight within far |
| `ShortLists.TotalsButLost` | atlas/atlas/domain/placement.py:41-46 | for lists of any length the summed costs exceed the true change by exactly the ways of the areas skipped because their last listed facility closed, and the newly far weights fall short of it by the weights skipped while near |
| `ShortLists.TotalsTrueWhenKept` | atlas/atlas/domain/placement.py:41-46 | so the newly far total is true exactly when no weighted area loses its last listed facility while it is near, and, with no negative distance, the cost total exactly when none loses one at a positive distance |
| `ShortLists.TotalTrueWhenServed` | atlas/atlas/domain/placement.py:41-46 | with all distances positive the cost total is true exactly when every weighted area with a list still has an open facility on it at the end |
| `ShortLists.LastingListsSuffice` | atlas/atlas/features/plan/service.py:3-5 | before the call: if every weighted area with a list has more facilities on it than may be closed, or one that is no candidate, both totals are true and no step is cheaper than an earlier one |
| `ShortLists.FullClosingTrueWhenOthers` | atlas/atlas/domain/placement.py:32-43 | before the call: when all candidates get closed and distances are positive, the cost total is true exactly when no weighted area's list lies inside the candidates |
| `ShortLists.ShortListsMislead` | atlas/atlas/domain/placement.py:41-46 | an input with lists that run out: the second step costs less than the first and neither total is the change from before to after |
| `CloseFacilities.SingleImpacts` | atlas/atlas/domain/placement.py:58-73 | the single pass gives for every facility what closing it first would do, areas affected included, and has an entry exactly for the facilities named |
| `CloseFacilities.OnlyFirstMatters` | atlas/atlas/domain/placement.py:66-72 | an area feels the closing of its first facility only, and then goes to its second |
| `CloseFacilities.FirstStepIsLeastSingle` | atlas/atlas/features/plan/service.py:96-101 | the first greedy step is the least of the single impacts, ties to the smaller number |
| `JobStore.Store.Active` | atlas/atlas/jobs/queue.py:38-42 | finds the queued job of the kind, and none exactly when there is none |
| `JobStore.Store.Enqueue` | atlas/atlas/jobs/queue.py:45-57 | inserts one fresh row, or changes nothing exactly when an index refuses it |
| `JobStore.Store.TryEnqueueSlot` | atlas/atlas/jobs/queue.py:60-70 | inserts one fresh row for the slot, or returns nothing and changes nothing exactly when the slot is taken or the kind waits |
| `JobStore.Store.Claim` | atlas/atlas/jobs/queue.py:73-86 | takes, of the queued jobs of the lane whose kind is not running, the one put in first and among those of one time the one with the smallest number; the row gets the worker, the time, one attempt more and no error; nothing only if there is none |
| `JobStore.Store.Heartbeat` | atlas/atlas/jobs/queue.py:118-120 | keeps an owned job from being stale for the next ten minutes and changes nothing else |
| `JobStore.Store.Finish` | atlas/atlas/jobs/queue.py:123-133 | records the end of an owned job for good, tells whether it did, leaves any other alone, and makes a second report do nothing |
| `JobStore.Store.Cancel` | atlas/atlas/jobs/queue.py:183-186 | cancels a queued job only, tells whether it did, and leaves no lane able to claim it |
| `JobStore.Store.CloseRuns` | atlas/atlas/jobs/queue.py:136-149 | closes exactly the open records of the given jobs, counts them, and leaves none open |
| `JobStore.Store.Reap` | atlas/atlas/jobs/queue.py:152-180 | the three statements in one transaction keep one queued and one running job per kind and one job per slot; a running job silent for more than ten minutes is given up for a queued one of its kind, requeued with attempts left, and failed otherwise, every other row stays, and the counts are those of the requeued and of all stale jobs |
| `Jobs.ReapedByCases` | atlas/atlas/jobs/queue.py:166-178 | every stale job is superseded, requeued or failed by exactly one statement, other rows stay, and exactly the records of the stale jobs are closed |
| `Jobs.ReapCounts` | atlas/atlas/jobs/queue.py:171-180 | the second statement's rows are the jobs requeued, the others' the rest of the stale ones |
| `Jobs.ReapedAloneIsSafe` | atlas/atlas/jobs/queue.py:163-180 | with nothing in between, the transaction leaves one queued and one running job per kind |
| `JobWorker.FollowUp` | atlas/atlas/jobs/worker.py:58-69 | whether inserted or refused, afterwards a recalculation (if called for) and every following kind wait in the queue, and nothing else has been put there |
| `JobWorker.Execute` | atlas/atlas/jobs/worker.py:52-85 | a job succeeds unless its work raised or all its collections failed; a recalculation waits before a success is recorded exactly where the kind, the request and changed data call for one, and without one of the three nothing is put in but the kinds that follow; an owned job ends DONE or FAILED; a failure is recorded and its open records closed only if the job is still owned, otherwise nothing changes |
| `JobWorker.ScheduleTick` | atlas/atlas/jobs/worker.py:216-220 | afterwards every due slot of a kind that can run has its job or finds its kind waiting, whatever is running; a job is put in for such slots only, and no slot has two |
| `JobRuns.StepKeepsInv` | atlas/atlas/jobs/queue.py:45-186 | every step of queue, worker or reaper, in any order, keeps the invariant |
| `JobRuns.RunKeepsInv` | atlas/atlas/jobs/queue.py:45-186 | so it holds in every state of every run |
| `JobRuns.OnePerKind` | db/migrations/V23__job_queued_unique.sql:1-6 | at every moment a kind has at most one queued and one running job, and a slot one job ever |
| `JobRuns.TerminalForever` | atlas/atlas/jobs/queue.py:115-186 | a job that is done, failed or cancelled never changes again |
| `JobRuns.ClaimsAreAttempts` | atlas/atlas/jobs/queue.py:78-83 | a job's attempts are the number of times it was claimed |
| `JobRuns.ClaimsBounded` | atlas/atlas/jobs/queue.py:171-176 | no job is claimed more than max_attempts times |
| `JobRuns.ClaimsOldestFirst` | atlas/atlas/jobs/queue.py:80-83 | in every run a claimed job was put in no later than any job the lane could have claimed at that moment, and bears the smallest number among those of its time |
| `JobRuns.ReapAbortsOnlyOnSlip` | atlas/atlas/jobs/queue.py:156-173 | the requeue ends the transaction exactly when a stale row with attempts left, not given up by the first statement, meets a queued row of its kind; that row was inserted after the first statement, and the table is unchanged |
| `JobExamples.RequeueCanAbort` | atlas/atlas/jobs/queue.py:156-160 | a complete run in which it does |
| `JobRuns.ReapUninterrupted` | atlas/atlas/jobs/queue.py:163-180 | the separate statements with nothing in between amount to the one transaction |
| `JobRuns.Fenced` | atlas/atlas/jobs/queue.py:113-133 | a heartbeat of the present execution or an end changes the table only while the job's current attempt is the lane's own, and only that job |
| `JobRuns.RunningBelongsToLastClaimer` | atlas/atlas/jobs/queue.py:78-83 | in every run a running job bears the name of the worker that claimed it last |
| `JobRuns.BeatsReachOnlyOwnClaims` | atlas/atlas/jobs/queue.py:113-120 | a heartbeat of any attempt, however late, changes only the heartbeat of a running job that its own worker claimed last |
| `JobRuns.BeatCountsIff` | atlas/atlas/jobs/queue.py:113-120 | it does so exactly when the job is running, its sender claimed it last and time has passed since the last heartbeat |
| `JobRuns.LateBeatCountsIff` | atlas/atlas/jobs/queue.py:113-120 | it counts for another attempt than its own exactly when, besides, the job has been claimed again since |
| `JobExamples.LateBeatCanCount` | atlas/atlas/jobs/worker.py:38-46 | a complete run in which a heartbeat of the first attempt counts for the second attempt of the same worker |
| `JobRuns.LostJobEndsQuietly` | atlas/atlas/jobs/worker.py:71-79 | a lane whose job was claimed again ends without touching table or records |
| `JobRuns.ClosesOnlyOwnRecords` | atlas/atlas/jobs/worker.py:77-80 | a record is closed by its own run, by the lane whose attempt failed, or by the reaper with the job; never one of a later claim |
| `JobRecalculation.LeftWasReal` | atlas/atlas/jobs/queue.py:73-86 | the noted data of a job that left the queue are those of a moment at which it was claimed or cancelled |
| `JobRecalculation.CommitCarriedIff` | atlas/atlas/jobs/worker.py:58-64 | for every commit of changed data in every run, by an execution or aside: some calculation is queued, or was queued after it and then claimed or cancelled and not given up for another, if and only if one waited at the commit or was put into the queue afterwards by a lane, by anyone with its slot free, or by the reaper |
| `JobRecalculation.ChainedIsNotLost` | atlas/atlas/jobs/worker.py:60-64 | data of an attempt that chained have their recalculation, also if the attempt then fails or has lost its job |
| `JobRecalculation.NoRecalculationLost` | atlas/atlas/jobs/worker.py:58-71 | whenever a collection that chained is recorded DONE, some calculation is queued, or was queued after the data and then claimed or cancelled, and was not given up for another |
| `JobExamples.RetryCanForget` | atlas/atlas/jobs/worker.py:53-71 | a run in which changed data are never followed by a calculation, the worker having died before chaining |
| `BankCrawl.Tiles` | atlas/atlas/collector/kakao/banks.py:110-120 | every point of the box is in some tile, no two tiles overlap, and every tile is a full step or ends at the edge of the box |
| `BankCrawl.SplitCovers` | atlas/atlas/collector/kakao/banks.py:123-126 | the four parts hold exactly the places of the rectangle and do not overlap, wherever the middle is rounded to |
| `BankCrawl.SplitLeavesLess` | atlas/atlas/collector/kakao/banks.py:175-178 | a split makes the stack longer but its potential smaller, so the crawl ends |
| `BankCrawl.PagesAreAll` | atlas/atlas/collector/kakao/banks.py:181-187 | the pages follow on from each other, and up to 45 places the pages read are all of them |
| `BankCrawl.Crawl.Save` | atlas/atlas/collector/kakao/banks.py:146-160 | the table is the old one with the banks handed over written on it once; branches, cash machines and entries skipped as neither are counted right |
| `BankCrawl.Crawl.Visit` | atlas/atlas/collector/kakao/banks.py:164-191 | the pages of a rectangle are called for one by one, each with a fate of its own, until one does not come: one page if it is empty or to be split, otherwise as many as hold its first 45 places and none without a place; the rectangle is lost exactly when one does not come or its answer is cut short, and otherwise replaced by its four parts or handed over whole; every counter tells what happened |
| `BankCrawl.Crawl.ReadRest` | atlas/atlas/collector/kakao/banks.py:182-187 | the pages after the first are asked for up to the first that fails or halts, and none that has no places; if all come, everything the service gives out of the rectangle has been handed over |
| `BankCrawl.Crawl.CollectFull` | atlas/atlas/collector/kakao/banks.py:163-207 | every place in the box is handed over, still on the stack, or in a lost rectangle; DONE exactly when every call was answered and no rectangle was cut short, and then every place was handed over |
| `BankCrawl.CollectBanksFull` | atlas/atlas/collector/kakao/banks.py:129-207 | after DONE the rows of this run are exactly the banks inside the box; after any outcome they are banks inside the box |
| `BankCrawl.WrittenIsReference` | atlas/atlas/collector/kakao/banks.py:201-207 | if every place was handed over, the rows of the run are all the banks of the box and no others |
| `MonthMoves.Tally.AddRows` | atlas/atlas/domain/migration.py:49-75 | sums, seen pairs and counts are those of the rows of the month with both codes and a new pair |
| `MonthMoves.Tally.Merge` | atlas/atlas/domain/migration.py:78-86 | merging adds district by district, in whatever order the districts are taken |
| `MonthMoves.KeptPerPair` | atlas/atlas/domain/migration.py:59-63 | one row is kept for each new pair |
| `MonthMoves.MovesAreShares` | atlas/atlas/domain/migration.py:65-74 | each district's sums are its share of every row, moves inside a district counted apart |
| `MonthMoves.DistrictsOfMoves` | atlas/atlas/domain/migration.py:65-66 | a district has sums exactly when some row names it |
| `MonthFetch.SumsAreCounted` | atlas/atlas/domain/migration.py:54-75 | told row by row: a row of another month or without both codes brings nothing to any district, any other to the two it names, and there are no other districts |
| `MonthMoves.MovesBalance` | atlas/atlas/domain/migration.py:68-74 | arrivals and departures are equal in total, for everyone and for those of 65 and over |
| `MonthFetch.FetchMonth` | atlas/atlas/collector/mois/migration.py:71-116 | the month is returned exactly when every page arrives in two rounds, no pair repeats and the rows are as many as announced, the pages being as many as the total fills at a hundred rows each; it is then the sum of all rows in page order, district by district, for every order of completion and every set of first failures |
| `MonthFetch.AnyOrder` | atlas/atlas/collector/mois/migration.py:100-104 | joining the pages in any order gives the same sums, pairs and counts |
| `MonthFetch.RepeatsTold` | atlas/atlas/collector/mois/migration.py:88-94 | the repeats counted inside pages and between them are none exactly when no pair repeats in the whole list |
| `MonthFetch.KeptWhole` | atlas/atlas/collector/mois/migration.py:113-115 | rows kept and skipped make up the whole list exactly when no pair repeats |
| `MonthFetch.FirstRound` | atlas/atlas/collector/mois/migration.py:96-107 | the pages that arrive are joined, the failed ones noted, and a halt ends the round |
| `MonthFetch.SecondRound` | atlas/atlas/collector/mois/migration.py:108-111 | the failed pages are tried once more by number, up to the first that brings nothing |
| `Poller.Poll.Run` | web/lib/poller.ts:8-11 | a start supersedes older loads and clears the pending timer |
| `Poller.Poll.Resume` | web/lib/poller.ts:11-13 | the newest load of a poller not stopped sets the next timer exactly when more is wanted and the page is seen; any other leaves the timers alone |
| `Poller.Poll.Stop` | web/lib/poller.ts:18 | the stop outdates every load and leaves no timer pending |
| `Poller.Poll.Kicked` | web/lib/poller.ts:17 | a kick starts a load in place of any timer and older load, and after the stop does nothing |
| `Poller.Poll.Expire` | web/lib/poller.ts:13 | a timer that runs out is followed by one load and no other timer |
| `Poller.OneChain` | web/lib/poller.ts:5-20 | however timers, loads, kicks and stop fall, pending timers and loads that may set one number at most one |
| `Poller.QuietAfterStop` | web/lib/poller.ts:17-18 | from the stop on no timer is pending and no load starts |
| `Poller.ChainEndsByItself` | web/lib/poller.ts:12-13 | a chain ends exactly when its newest load fails, wants no more or finds the page hidden, or by the stop |
| `Poller.ChainBeginsByKick` | web/lib/poller.ts:13-18 | with no chain going on a kick begins one unless the poller is stopped, and nothing else does |
| `Holidays.HolidayRun` | atlas/atlas/domain/calendar.py:24-35 | for every table it ends and returns the whole run of closed days (Saturdays, Sundays and named holidays) around the day, and none exactly when the day is open |
| `Holidays.RunIsMaximal` | atlas/atlas/domain/calendar.py:25 | the run contains every stretch of closed days around the day |
| `Holidays.RunIsUnique` | atlas/atlas/domain/calendar.py:25 | all days of a run have the same run |
| `Holidays.DayStatus` | atlas/atlas/domain/calendar.py:15-21 | closed are Saturdays, Sundays and named holidays; the reason given is the holiday if there is one, then the day of the weekend |
| `Scheduler.Due` | atlas/atlas/jobs/scheduler.py:46-54 | lists exactly the slots of all days, at the hour and minute of the entry on its weekdays, whose time has come and whose half hour is not over, midnight included |
| `Scheduler.TwoDaysAreEnough` | atlas/atlas/jobs/scheduler.py:50 | what is due now occurs today or yesterday |
| `Scheduler.NothingMissed` | atlas/atlas/jobs/scheduler.py:12 | ticks at most half an hour apart see every occurrence between the first and the last |
| `Scheduler.NextRun` | atlas/atlas/jobs/scheduler.py:57-62 | the earliest occurrence after now, and none exactly when the entry has no time or no weekday |

## Left out

- Floating point: distances, weights and sums are exact; rounding, 32-bit storage and infinities as numbers are not modelled (a missing distance is a constructor of its own).
- Library calls: the heap is a bag whose least item is popped, `lexsort`, `bincount` and `cumsum` are small functions, and the nearest vertices with their distances (tree search, great-circle formula) are inputs.
- KSource.KNearest: a label list that does not exist yet and an empty one are the same, which for k of at least 1 makes no difference.
- RoadGraph.MetricPreserved: the cutting of ways into segments in `build` is not modelled; the segments are the input.
- NearestPoints.NearestK: the rows are proved, not their copying into the table with ranks and rounded distances.
- OpenSites.GreedyOpen: site and area codes are numbers, as fixed-width digit strings compare like numbers; a site names an area at most once.
- The grouping of affected areas, the names, trends and caches around the placement plans.
- JobRuns.StepKeepsInv: one reaper transaction at a time; isolation between statements is as the row locks and the unique indexes give it, and serialization of concurrent reapers is not modelled.
- JobRecalculation.NoRecalculationLost: the job number noted as chained is read in a second transaction and may be missing; it is not modelled.
- The schema's other columns, NOTIFY and LISTEN, worker signs of life, child processes, timeouts and reconnecting: a crash is a single step.
- BankCrawl.CollectBanksFull: the service is taken to list the same places throughout the crawl; the other collector by nearest three, database errors and the counts of rectangles left over are not modelled, and widths are compared in whole millionths of a degree.
- MonthMoves.Tally.AddRows: the names of districts, which depend on the page seen first, the parsing of numbers and codes, and the call without a set of seen pairs.
- MonthFetch.FetchMonth: three calls at a time and the cancelling of calls not yet made after a halt change no result and are not modelled; an answer without rows on a later page is a page of no rows.
- Writing the month, choosing the months to fetch, matching districts and code changes.
- Holidays.HolidayRun: the calendar has no first or last day.
- Scheduler.Due: a slot is the pair of kind and time, its text form is not modelled, and hours and minutes are valid as in the fixed table. Sorting a day's times and taking the first is rendered as taking the least.
- Web pages, routes, sign-in, the SQL analytics, other collectors and the scripts.

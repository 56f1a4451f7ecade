# Verified model of the safety map's state machines and arithmetic

The repository serves a map of reported crime: an ETL loads incidents and census
blocks into PostGIS, a FastAPI service ranks and serves cells, and a single page
draws them, compares routes and guides a visitor along one. Most of it is SQL,
I/O and text. This project models the parts that carry state or arithmetic with
something to get wrong, and proves what the code and its comments promise of them.

Check everything with `dafny verify dfyconfig.toml`.

| file | what it models |
|---|---|
| `Recency.dfy` | least-recently-used order, shared by the response cache and the rate limiter |
| `ResponseCache.dfy`, `SingleFlight.dfy` | the API's byte-bounded cache, and the leader/follower protocol around it as an interleaving of N request threads and the ETL |
| `RateLimit.dfy` | token buckets kept in a bounded LRU table |
| `Ranking.dfy`, `Shrinkage.dfy`, `Blending.dfy`, `RangeQuery.dfy` | the activity and safety rankings, Poisson-gamma shrinkage, neighbour blending and the served safety ranking end to end, and reading a date range off the daily rollup |
| `Planner.dfy`, `Executor.dfy` | the convergence planner, the effect of its steps, and the executor with its ledger and retry cooldown |
| `Census.dfy` | areal apportionment, built incrementally and kept across the release of the polygons |
| `RouteScorer.dfy` | the route scorer's merged, partially fetched rows |
| `Polyline.dfy`, `Navigation.dfy` | the nearest point of a polyline, and the step tracker built on it |
| `LayerRequests.dfy` | the map page's overlapping layer loads |
| `Paint.dfy` | the MapLibre paint compiler against its direct twin |
| `RouteRating.dfy`, `ServedRatings.dfy` | the port of the map's rating used for routes, and the two over one database |
| `Reals.dfy`, `Wrappers.dfy` | arithmetic lemmas; `Option` |

## How to read it

- Code that updates objects in place is a class whose methods are proved against a
  function of the old state (`ResponseCache.Cache`, `RateLimit.Limiter`,
  `Executor.Ops`, `RouteScorer.Scorer`, `Census.Database`, `LayerRequests.MapPage`);
  loops over locals are methods with invariants (`Planner.PlanFromState`,
  `Polyline.ProjectOnLine`, `Navigation.NavProgress`, `Paint.ValueDomain`). The
  properties are lemmas about those functions. SQL is a function over sequences of rows.
- Protocols are state machines over their atomic steps, and "reachable" quantifies
  over every finite interleaving.
- Every induction is written out; `{:induction false}` keeps Dafny from adding its own.
- Fields that only record history (who leads a Future, the data version a document
  was built from, whether blocks were reloaded since the last rebuild) are never
  read by an operation.

## Assumptions

- Rates, times, distances and percentiles are real numbers.
- Clocks do not go backwards within a process, and a later database read sees data
  at least as new as an earlier one.
- `Math.hypot` and the cosine are parameters; `hypot` is taken to be the nonnegative
  root of the sum of squares. PostGIS intersection areas are a parameter; that cells
  do not overlap, or cover a block, is stated of the summed shares.
- Equal cache keys name the same city (every caller puts the city in its key).
- The effect of each planned step is taken from the command the planner runs
  (safety/etl/run.py:367-564, 814-830, 1005-1079, 1195-1310, 1387-1452). How a pull
  ends, what the history slices bring, and whether the enabled schemes can write the
  weekday factors and an hourly ranking are inputs of the run; rebuilding a
  time-of-day layer never empties it. A `history` pull counts as no incident pull.
- Where convergence over many runs is stated, every step of them succeeds, the schemes
  can write their layers, and a history load moves the coverage date back, as
  safety/ops.py:456-459 has it; `Planner.OneRunConverges` and `Planner.HistoryProgress`
  say what happens otherwise.
- A route's rows are read from one state of the database: no gold refresh commits
  between the loads of one request.
- A feature's measured properties are numbers, null or missing. A cell's exposure is the
  same for both tracks, and the layer a page loads holds every cell of the city.

## Where the code and its own description differ

- safety/ops.py:242-248 relies on a backfill refreshing gold itself. `cmd_backfill`
  does so only after a pull that promoted rows (safety/etl/run.py:820-828), and exits 0
  after any pull that does not raise. `Planner.OneRunConverges` gives the exact condition for one successful
  run to converge a city. Where the validator refuses every backfill
  (safety/etl/run.py:466-481), the runs of a city with census blocks succeed for ever
  without converging (`Planner.RefusedForever`). Where the first finds nothing, no
  later run can succeed, because gold raises for a city with no incidents
  (`Planner.NothingFound`).
- A converged city does not always stay so: its history load can bring the first clock
  hours, and with them a time-of-day layer to build (`Planner.ConvergedStays` gives the
  condition, `Planner.HistoryBringsHours` an input).
- safety/ranking_sql.py:169-173 argues that the ranking does not make a cell look safer
  for having more offences. Shrinkage keeps that (`Shrinkage.RaisingNeverRanksSafer`);
  the blend with the neighbours does not. `Blending.RanksSaferIff` says exactly when the
  percentile rises, `Blending.GapKeptIff` exactly when a lead over another cell is kept,
  and `Blending.BlendingCanRankSafer` is a four-cell city, under the served scheme, in
  which the first offences raise a cell's percentile from 0.5 to 0.625.
- web/app.js:570-571 calls `cellRatio` the twin of the fill expression. They part for
  a painted cell of a timed safety view that has no average of its own:
  `Paint.TwinExactly` gives the condition and `Paint.TwinBreaks` a layer.
- safety/api/repository.py:320-323 and safety/api/directions.py:523-528 have a route
  compared as the map's timed layer paints it. Over a database whose layers are built
  that holds except, exactly, where a day's factors leave no positive average:
  `ServedRatings.AgreeIff` gives the condition, `ServedRatings.FactorsVanishHere` a
  database, and `ServedRatings.UnbuiltCell` both figures for a cell whose hour or day was
  not built. Over all hours they always agree (`ServedRatings.AgreeUntimed`).
- safety/api/ratelimit.py:87-92 argues that a forgotten client would have refilled
  most of its bucket anyway. `RateLimit.TwiceTheBurst` is a run, in every zone and for
  every size of the table, in which one client is admitted twice its burst in no time.
  `RateLimit.RateBound` charges one bucket for each time the table forgot the client,
  which that run attains; `RateLimit.RateBoundWhileRemembered` is the plain limit for a
  client that is not crowded out.

## Model

| member | source | states |
|---|---|---|
| `Recency.AfterIsUsedSince` | safety/api/ratelimit.py:87-97 | what stands behind a key in recency order is exactly the set of keys used since it was |
| `Recency.RetainedIff` | safety/api/ratelimit.py:141-143 | a table of the n most recently used keys holds a key iff fewer than n distinct others were used since |
| `Recency.TouchSuffix` | safety/api/ratelimit.py:141-143 | popping from the front after each use always leaves the n newest of the unbounded recency order |
| `ResponseCache.Cache.constructor` | safety/api/main.py:180-181 | the cache starts empty, with its bytes, hits and evictions at zero |
| `ResponseCache.Cache.Lookup` | safety/api/main.py:265-270 | a hit only at the matching stamp, moved to the recent end and counted; a miss changes nothing |
| `ResponseCache.Cache.Store` | safety/api/main.py:220-246 | the eviction loop terminates in the specified cache, with the running byte count exact and each pop counted once |
| `ResponseCache.StoreExact` | safety/api/main.py:220-246 | a store leaves the new entry behind the untouched tail of the recency order, cut at the earliest place that makes room; an oversized value is never admitted |
| `ResponseCache.EvictShortestPrefix` | safety/api/main.py:238-243 | eviction removes the shortest prefix of the recency order after which the value fits |
| `ResponseCache.WithoutBytes` | safety/api/main.py:227-229 | dropping the stale entry of a key gives back exactly that entry's bytes |
| `ResponseCache.StoreKeepsBudget` | safety/api/main.py:220-246 | a store keeps one entry per key and both budgets, and invents no entry |
| `ResponseCache.TouchKeepsBudget` | safety/api/main.py:267-268 | a hit keeps the entries, their total size and both budgets |
| `ResponseCache.CacheInvariant` | safety/api/main.py:220-270 | after any sequence of hits and stores: one entry per key, both budgets held, keys in the order they were last used |
| `ResponseCache.StoredIsServed` | safety/api/main.py:220-270 | the lookup after a store finds a value that fits at its own stamp and no other, and nothing where it does not fit |
| `ResponseCache.AnswersAreLastWrites` | safety/api/main.py:220-270 | after any sequence of reads and stores, a key finds the last value stored for it, exactly while that is held and at the stamp asked for |
| `SingleFlight.StepInv` | safety/api/main.py:249-297 | every step of every thread keeps the invariant tying the cache, the flights, the Futures and the threads together |
| `SingleFlight.RunInv` | safety/api/main.py:249-297 | so it holds after every run of every interleaving, refreshes included |
| `SingleFlight.OneBuilder` | safety/api/main.py:205-208 | no two threads that go through the cache ever build the same key at the same stamp; `PastCacheIff` says which those are |
| `SingleFlight.LeaderLives` | safety/api/main.py:271-296 | an unresolved Future has a live leader; whether its producer returns or raises, its own next steps are enabled and resolve the Future with that document or exception |
| `SingleFlight.LeaderFinishes` | safety/api/main.py:284-296 | the same from any point of a leader's work, with a value and with an exception |
| `SingleFlight.ResolvedOnce` | safety/api/main.py:286-296 | a resolution is final in every run, and no step resolves a Future twice |
| `SingleFlight.SharedOutcome` | safety/api/main.py:205-208 | every follower gets its leader's value or exception, for the same key and stamp |
| `SingleFlight.FailedFlightIsGone` | safety/api/main.py:286-290 | after a failure no flight is registered, and the next request hits or leads a new one |
| `SingleFlight.NeverStale` | safety/api/main.py:184-197 | whatever refreshes, evictions and slow leaders intervene, a document is its request's own key's and built from data at least as new as when the request arrived |
| `SingleFlight.PastCacheIff` | safety/api/main.py:259-263 | in every run, a request goes past the cache iff it asks to or its source had no stamp when it read it; any other is answered in the cache at exactly the stamp it read |
| `SingleFlight.UnstoredTouchesNothing` | safety/api/main.py:254-260 | a request with `store` false changes no entry, counter, flight or Future |
| `SingleFlight.CacheIsReplay` | safety/api/main.py:264-293 | however threads interleave, the cache is its lookups and stores replayed in lock order: keys in last-use order, each finding the last document published for it |
| `SingleFlight.PublishedIsServed` | safety/api/main.py:265-293 | a published document that fits answers the next request for its key and stamp, which leads nothing |
| `SingleFlight.EveryRequestAnswered` | safety/api/main.py:249-297 | no deadlock: at most five steps per request, and some thread can move without a timeout until all are answered |
| `SingleFlight.StatsExact` | safety/api/main.py:268-293 | hits and misses account for every request except failed leaders and bypasses, and the budgets hold throughout |
| `RateLimit.Limiter.Consume` | safety/api/ratelimit.py:128-144 | the in-place update and eviction loop leave the specified table; the wait returned is 0.0 iff the key held a whole token, and exactly then one is spent |
| `RateLimit.ConsumeSpends` | safety/api/ratelimit.py:128-144 | in every reachable table: the wait is 0.0 iff the key has a whole token, which is then spent, else positive and nothing is spent; no other key the table keeps is touched |
| `RateLimit.RefillsCompose` | safety/api/ratelimit.py:130-138 | refilling in two steps is refilling once |
| `RateLimit.RefusalsAreFree` | safety/api/ratelimit.py:134-139 | any number of refused calls leaves a key's later admissions unchanged |
| `RateLimit.WaitIsExact` | safety/api/ratelimit.py:134-139 | with nothing admitted between, a refused key is refused before now + wait and admitted at any time from then on |
| `RateLimit.RetryAfterLeast` | safety/api/ratelimit.py:170-172 | Retry-After is the least positive number of whole seconds after which a quiet client is admitted |
| `RateLimit.TableKeys` | safety/api/ratelimit.py:141-143 | after any run the table holds exactly the most recently used keys, in that order |
| `RateLimit.RememberedIff` | safety/api/ratelimit.py:87-97 | a key is forgotten exactly when that many distinct others were used since |
| `RateLimit.RateBound` | safety/api/ratelimit.py:128-144 | in any run, one key's requests told to wait 0.0 over a span number at most its capacity, a bucket per forgetting, and rate times the span |
| `RateLimit.RateBoundWhileRemembered` | safety/api/ratelimit.py:75-80 | capacity + rate * d for a key that is not crowded out of the table |
| `RateLimit.LimitsInFigures` | safety/api/ratelimit.py:75-80 | that limit in each zone's own burst and rate |
| `RateLimit.CrowdedOutStartsOver` | safety/api/ratelimit.py:87-92 | once enough distinct others have come between, the key starts over with a full bucket |
| `RateLimit.TwiceTheBurst` | safety/api/ratelimit.py:87-97 | for every zone and table size, a run in which a key crowded out once is served twice its capacity in no time: the plain limit fails and the general bound is attained |
| `RateLimit.SpacedNeverRefused` | safety/api/ratelimit.py:75-76 | a client spaced 1/rate apart is never told to wait, whatever others do |
| `Ranking.MidrankMeaning` | safety/ranking_sql.py:214-221 | the safety percentile is the share of cells above, ties counted half, strictly between 0 and 1 |
| `Ranking.MidrankOrders` | safety/ranking_sql.py:214-221 | lower rates score strictly higher and equal rates equally, both ways |
| `Ranking.MidrankMirrors` | safety/ranking_sql.py:214-221 | reversing the order maps a percentile p to 1 - p |
| `Ranking.HalvesTotal` | safety/ranking_sql.py:214-221 | each pair of cells contributes two halves and each cell one |
| `Ranking.MidranksSumToHalf` | safety/ranking_sql.py:214-221 | the percentiles of N cells sum to exactly N/2 |
| `Ranking.TierFollowsRate` | safety/ranking_sql.py:247-256 | among cells with reports, a higher rate never has a safer tier or rank |
| `Ranking.TierIsQuarter` | safety/ranking_sql.py:247-256 | tier 0 iff nothing was reported; the others are the quarters of the percentile |
| `Ranking.TierIsFifth` | safety/ranking_sql.py:94-103 | tier 0 iff nothing was reported; the others are the fifths of the percentile |
| `Ranking.TimedReproducesStored` | safety/api/repository.py:913-962 | with no hour and every weekday factor 1 or absent, ranking at request time gives the stored percentiles, ranks and tiers |
| `Ranking.TimedRanksTheHour` | safety/api/repository.py:913-962 | where the hour is built, the ranking is that of the hour's rates times their factors, stored rates counting for nothing |
| `Ranking.UniformFactorMovesNothing` | safety/api/repository.py:913-962 | one positive factor for the whole city changes no percentile, rank or tier |
| `Ranking.FilterCommutesWithRanking` | safety/ranking_sql.py:61-66 | ranking some categories gives what ranking more and then filtering gives, so the map and the cell panel agree |
| `Ranking.PercentileMeaning` | safety/ranking_sql.py:73-77 | the activity percentile is in [0, 1], equal for ties, strictly rising with density, and 0 for the least dense block |
| `Ranking.ActivityInCounts` | safety/ranking_sql.py:67-79 | in counts and areas: the total is the category's rows, the rank one more than the denser ones, the percentile the share of the others that are less dense |
| `Ranking.ActivityRows` | safety/ranking_sql.py:48-79 | the ranking has one row for each row of the categories asked for, with those figures taken over all rows given |
| `Shrinkage.ShrinkingConserves` | safety/ranking_sql.py:162-185 | weighted by exposure plus prior, adjusted rates average to the city's rate |
| `Shrinkage.Bracketed` | safety/ranking_sql.py:165-182 | an adjusted rate lies between the cell's own and the city's; at zero exposure it is city rate + w/prior |
| `Shrinkage.RaisingWidensEveryGap` | safety/ranking_sql.py:155-185 | more weight in one cell lifts its adjusted rate at least as much as the city's, and any other's at most as much, so no gap to another cell shrinks |
| `Shrinkage.RaisingNeverRanksSafer` | safety/ranking_sql.py:169-173 | ranked on adjusted rates alone, more offences never give a safer percentile |
| `Blending.BlendingStaysInRange` | safety/ranking_sql.py:199-210 | with a self weight in [0, 1] blending stays within the range of the adjusted rates, with or without neighbours |
| `Blending.NeighboursAlike` | safety/ranking_sql.py:199-210 | a cell with no neighbour in the city keeps its own rate; neighbours of one rate count as that rate, however many |
| `Blending.BlendRise` | safety/ranking_sql.py:155-210 | more weight in a cell moves every blended rate by that weight times a lift that depends only on exposures, prior, neighbours and self weight |
| `Blending.GapKeptIff` | safety/ranking_sql.py:155-210 | more offences keep a cell's lead over another iff they lift its own blended rate at least as much |
| `Blending.RanksSaferIff` | safety/ranking_sql.py:155-225 | more offences give a cell a safer percentile iff the gaps, moved by the lifts, put more cells above it |
| `Blending.LiftedMostNeverSafer` | safety/ranking_sql.py:155-225 | a cell its own offences lift the most never gets a safer percentile for them |
| `Blending.FirstOffencesRankSaferIff` | safety/ranking_sql.py:155-225 | where nothing was reported, first offences give a safer percentile iff they lift more cells above theirs than below |
| `Blending.BlendingCanRankSafer` | safety/ranking_sql.py:199-221 | a city, under the served scheme, in which they do: from 0.5 to 0.625 |
| `Blending.ReportedRanksSaferIff` | safety/ranking_sql.py:108-259 | the same on the whole statement, from exposures and reports to the percentile column |
| `Blending.ServedPercentiles` | safety/ranking_sql.py:108-259 | on the whole statement the percentiles sum to half the cells, the tier follows the blended rate, and tier 0 means nothing reported |
| `RangeQuery.RollupGroups` | safety/etl/gold.py:1905-1932 | the rollup has one row for each cell and kept day with an incident, and no other |
| `RangeQuery.RangeIsDirect` | safety/api/repository.py:784-800 | summing the daily rollup over any range counts exactly the incidents of the range's kept days |
| `RangeQuery.RangeWeighsDirectly` | safety/api/repository.py:802-810 | so do the weighted columns, for each track's incidents and their weight |
| `RangeQuery.RangeSplits` | safety/api/repository.py:784-800 | adjoining ranges add up |
| `RangeQuery.RowsAt` | safety/ranking_sql.py:41-60 | every cell of the universe is ranked with five rows, each category with its own count and the cell's area |
| `RangeQuery.RangeRanksAsWindow` | safety/api/repository.py:1202-1212 | a range ranks every cell by activity as a window built over the same days would |
| `RangeQuery.RangeRatesAsWindow` | safety/api/repository.py:840-868 | and by safety, through shrinkage, blend and midrank |
| `RangeQuery.CityTotalIsLayerPlusElsewhere` | safety/api/repository.py:1632-1664 | citywide totals are the layer's counts plus what falls outside it, so they agree iff nothing in the range does |
| `Planner.PlanFromState` | safety/ops.py:202-335 | appending step by step, with its folding flags, yields the planned steps |
| `Planner.PlanInOrder` | safety/ops.py:203-219 | every plan is in dependency order with no step twice |
| `Planner.PlanShape` | safety/ops.py:202-335 | census is always followed by gold; exactly one step builds the time-of-day layer iff it is needed, never before gold |
| `Planner.PlanEmptyIffUpToDate` | safety/ops.py:202-335 | the plan is empty apart from history exactly for a city whose data is current |
| `Planner.RunSucceedsIff` | safety/etl/gold.py:2462-2464 | a run's steps can all succeed iff gold, where the run builds any, finds incidents, and no history slice is refused |
| `Planner.NothingFound` | safety/etl/run.py:443-453 | a first backfill that finds nothing leaves a city no run can finish |
| `Planner.OneRunConverges` | safety/ops.py:202-335 | one successful run converges a city iff the backfill it needed brought rows (or found nothing where census made gold run), missing weekday factors could be written, and no clock hour is left without an hourly ranking |
| `Planner.NewCityHasItsHours` | safety/ops.py:226-235 | a city never pulled has its time-of-day layer after the run whose pull brings the first clock hours |
| `Planner.CoverageAfter` | safety/etl/run.py:443-564 | a completed backfill takes the coverage date back to where it starts, a history load to what it reached, and nothing moves it forward |
| `Planner.GoldRefreshedIff` | safety/etl/run.py:820-830 | a run leaves gold refreshed iff its backfill brought rows, it built gold or the hourly layer, or its history load finished |
| `Planner.LayersOnlyAsPlanned` | safety/ops.py:256-290 | a run none of whose steps is to build the time-of-day layers builds none |
| `Planner.ConvergedStays` | safety/ops.py:222-239 | a converged city stays so iff its history load does not bring the first clock hours |
| `Planner.HistoryBringsHours` | safety/ops.py:222-239 | an input at which it does |
| `Planner.PulledIff` | safety/etl/run.py:466-481 | after any successful runs a city is without a completed pull iff the validator refused every backfill |
| `Planner.RefusedForever` | safety/etl/run.py:820-830 | such a city never converges, though with census loaded each of its runs succeeds |
| `Planner.HistoryProgress` | safety/ops.py:317-347 | a run shortens the history left iff it loads any and reaches further back, and never lengthens it |
| `Planner.EveryCityConverges` | safety/ops.py:202-347 | from any state, once a pull has completed, the plan is empty after one run more than there are days of history left, and stays empty |
| `Executor.Ops.RunStep` | safety/ops.py:526-560 | the row is recorded before the work and closed by its outcome, unless the process dies |
| `Executor.Ops.TakeStep` | safety/ops.py:714-718 | a turn that runs a step records it and files it under done or failed |
| `Executor.Ops.RunSteps` | safety/ops.py:697-718 | one city's loop appends exactly the attempted steps' rows and returns the specified summary |
| `Executor.Ops.ConvergeCity` | safety/ops.py:681-718 | asking the cooldown first, then running, extends the ledger as specified |
| `Executor.SummaryAccounts` | safety/ops.py:697-718 | done ++ at most one failed or skipped ++ blocked is exactly the plan, and nothing ran unless everything before it succeeded |
| `Executor.ProceedAccounts` | safety/ops.py:697-718 | the same from any point of the loop |
| `Executor.PlansNameNoTaskTwice` | safety/ops.py:202-335 | every plan meets what the executor asks of one |
| `Executor.Ops.Converge` | safety/ops.py:681-718 | the loop over cities starts exactly the cities no killed process comes before, and returns each one's summary |
| `Executor.CitiesIndependent` | safety/ops.py:681-724 | a city is reached iff none before it would have killed the process alone, and then its steps, rows and summary are what they would be alone |
| `Executor.AttemptsSpaced` | safety/ops.py:429-477 | over whole histories, unforced attempts closer than the cooldown come only after a success of a history step or of another pipeline version |
| `Executor.AbandonedNeverBlocks` | safety/ops.py:435-440 | any planned step never attempted, or last attempted longer ago than the cooldown, an abandoned running one included, is attempted once all before it succeed |
| `Executor.FirstRunAttempts` | safety/ops.py:429-440 | a city with no row in the ledger has every step of its plan attempted up to the first that does not succeed, forced or not |
| `Executor.ForcedAttempts` | safety/ops.py:686-695 | a forced run does so whatever the ledger holds |
| `Executor.AttemptsAreThePlans` | safety/ops.py:480-560 | a run adds rows only for its plan's first steps, each but the last a success, telling how, when and under which version each ran |
| `Executor.LeftAloneIff` | safety/ops.py:429-477 | from one run to the next: after an attempt, and whatever happened to other steps, a step is left alone iff the cooldown has not passed and the attempt failed, was killed, or succeeded to no effect |
| `Census.PeopleConserved` | safety/etl/census.py:492-531 | over disjoint cells apportioned people sum to at most the block total, with equality when the cells cover the blocks |
| `Census.RowsConserve` | safety/etl/census.py:492-531 | after any run, unless blocks were reloaded since, the stored residents sum to at most the loaded population and the stored jobs to at most the loaded jobs, exactly so where the cells cover the blocks |
| `Census.RowTellsItsCell` | safety/etl/census.py:504-512 | a stored row counts the blocks meeting its cell, and has no residents (no jobs) where none of them has any |
| `Census.ApplyFaithful` | safety/etl/census.py:574-638 | growth, load, build, rebuild and release each keep every stored row equal to the full apportionment |
| `Census.IncrementalIsFull` | safety/etl/census.py:512-531 | so does any interleaving of them, with or without polygons |
| `Census.IncrementalMatchesRebuild` | safety/etl/census.py:574-592 | filling in missing cells and rebuilding the city leave the same table |
| `Census.BuildAllOrNothing` | safety/etl/census.py:600-633 | a build refuses, changing nothing, iff it would need released polygons; otherwise every cell ends with a row and kept rows are untouched |
| `Census.ReleaseIsSafe` | safety/etl/census.py:704-758 | release succeeds iff no cell is pending, keeps counts and rows, and a later build is refused iff the city has grown |
| `Census.Database.BuildCellExposure` | safety/etl/census.py:574-633 | the check, delete and insert amount to the specified build |
| `Census.Database.ReleaseBlockGeometry` | safety/etl/census.py:704-758 | the check and update amount to the specified release |
| `RouteScorer.Scorer.constructor` | safety/api/directions.py:438-459 | nothing is known of any cell before the first load |
| `RouteScorer.Scorer.Load` | safety/api/directions.py:481-509 | a load covers everything asked of it and never forgets an earlier hour, day or cell |
| `RouteScorer.Scorer.Fetch` | safety/api/directions.py:494-509 | merging one read keeps the held rows in agreement with the database |
| `RouteScorer.Scorer.Ratios` | safety/api/directions.py:511-533 | at every covered cell and time the ratio is the one a complete direct read gives |
| `RouteScorer.HeldAnswersAsComplete` | safety/api/directions.py:511-533 | held rows answer as complete ones though they may hold fewer hours, more hours, or no row at all |
| `RouteScorer.FetchConsistent` | safety/api/directions.py:503-509 | the bookkeeping of known cells and times stays sound across a fetch |
| `RouteScorer.LoadCompletes` | safety/api/directions.py:486-509 | fetching what is missing covers every wanted cell at every wanted time |
| `RouteScorer.LoadAsksOnly` | safety/api/directions.py:484-493 | a load fetches nothing not asked for, no time without an hourly layer, and nothing where all is held |
| `RouteScorer.MergeAgrees` | safety/api/directions.py:503-507 | merging keeps agreement with the database and loses nothing known |
| `RouteScorer.ReadKnows` | safety/api/repository.py:400-475 | a read over all hours and days a cell has knows the cell at that time |
| `RouteRating.DomainAverage` | safety/routing/scoring.py:231-259 | the Python average of a layer is the map page's |
| `RouteRating.BaselineIsLayerAverage` | safety/api/repository.py:331-386 | the averages summed in SQL over the stored rows are those of the layer that shows them |
| `ServedRatings.AgreeUntimed` | safety/api/repository.py:975-1066 | over one database and all hours, a route rates every cell as the map does |
| `ServedRatings.AgreeIff` | safety/api/directions.py:511-533 | at an hour and a day, over built layers, it does iff the day's factors do not vanish at that cell |
| `ServedRatings.FactorsVanishHere` | safety/api/directions.py:523-528 | a database and a time at which they do |
| `ServedRatings.UnbuiltCell` | safety/api/repository.py:913-950 | for a painted cell whose hour row or day factor is missing, the two figures each side gives, so that they agree iff these are equal |
| `ServedRatings.OneTrackEach` | safety/api/repository.py:975-1066 | what the database holds of one track moves neither the layer nor a route's ratio of the other |
| `Polyline.ProjectOnLine` | web/directions.js:350-374 | the loop computes the specified place, including the empty line, the single point and segments of no length |
| `Polyline.ProjectIsLocal` | web/directions.js:352-353 | the projection puts the visitor at the origin, a degree of latitude M_PER_DEG metres north and one of longitude that times the cosine east |
| `Polyline.AtEnds` | web/directions.js:364-367 | the points of a segment run from its start to its end in equal steps for equal shares |
| `Polyline.SegmentNearest` | web/directions.js:362-366 | the clamped foot of the perpendicular is the segment's nearest point |
| `Polyline.NearestPoint` | web/directions.js:346-374 | the distance is the minimum over every point of every segment |
| `Polyline.NearestPointAttained` | web/directions.js:346-374 | it is attained at the reported place, which lies between 0 and the line's length |
| `Navigation.NavProgress` | web/directions.js:393-422 | both loops terminate in the specified progress |
| `Navigation.NextForward` | web/directions.js:383-394 | a fix never moves the step back nor past the end, and arrival is absorbing |
| `Navigation.ChosenNearest` | web/directions.js:402-409 | the chosen step is within 1 m of the nearest in the window and strictly nearer than every earlier one |
| `Navigation.ChosenInWindow` | web/directions.js:402-409 | the choice is made among the current step and the three after it, and fails only where none of them has a line |
| `Navigation.EndedIsBehind` | web/directions.js:395-399 | a leg more than a minute past its end is behind the visitor whatever the fix says |
| `Navigation.PassEndsFirst` | web/directions.js:413-420 | the step shown is the first, from the chosen one on, whose end the visitor is not at |
| `Navigation.StepShown` | web/directions.js:410-421 | in the visitor's own projections: every step passed has under 15 m ahead, a step shown by its own line has at least 15 m and `remaining` is what is ahead, one without a line shows the rest of the step before |
| `Navigation.ArrivesIff` | web/directions.js:393-422 | the visitor arrives iff under 15 m of the chosen step and of every one after it lie ahead |
| `Navigation.TripForward` | web/app.js:2899-2902 | over a whole trip the step never decreases, never exceeds the route, and arrival lasts |
| `Navigation.TimetableHolds` | web/directions.js:395-399 | a leg the timetable has passed at one fix stays passed at every later one |
| `LayerRequests.StartedInv` | web/app.js:792-809 | starting a load or a poll keeps the box, the dimming and the abort in step with the newest request |
| `LayerRequests.SettledInv` | web/app.js:826-876 | so does any way a request can settle |
| `LayerRequests.RunInv` | web/app.js:792-876 | so they stay in step over all interleavings of loads, polls, aborts, successes and failures |
| `LayerRequests.NeverStuckLoading` | web/app.js:793-796 | the box reads "Loading" and the map is dimmed iff the newest request is visible and outstanding; once it settles the box is hidden or shows an error |
| `LayerRequests.NewestIsNeverAborted` | web/app.js:797-799 | only superseded requests are aborted, all outstanding ones are, and a newest request that arrives is the one shown |
| `LayerRequests.ShownOnlyGrows` | web/app.js:834-839 | the sequence number of the layer on screen only grows |
| `LayerRequests.SupersededIsSilent` | web/app.js:856-858 | however superseded requests end, nothing on screen moves |
| `LayerRequests.FailedPoll` | web/app.js:793-796 | a failed poll leaves the screen as it found it, or reports if it took over a visible load |
| `LayerRequests.MapPage.constructor` | web/app.js:460-461 | the page opens with no request, no layer and a hidden box |
| `LayerRequests.MapPage.LoadLayer` | web/app.js:792-809 | the part before the first await is the specified start |
| `LayerRequests.MapPage.Settle` | web/app.js:826-876 | the try, catch and finally amount to the specified settling |
| `Paint.ValueDomain` | web/app.js:128-148 | the loop computes the city average over painted cells, by person where any has people |
| `Paint.AverageBracketed` | web/app.js:112-127 | a city average lies within the values of the painted cells |
| `Paint.AverageExists` | web/app.js:146-147 | without negative values there is an average iff some painted cell that counts has a positive value |
| `Paint.RatioTwin` | web/app.js:570-606 | for every cell the compiled ratio evaluates to cellRatio, -1 for null, but in one case, where its value is given |
| `Paint.TwinExactly` | web/app.js:570-606 | the two agree iff the cell is not in that case |
| `Paint.UntimedTwin` | web/app.js:549-606 | for counts, and for safety over all hours, they agree on every cell of every layer |
| `Paint.TwinBreaks` | web/app.js:570-606 | a layer in which they differ |
| `Paint.UntimedOrdersAsRates` | web/app.js:503-520 | over all hours, colours order cells as their rates do, borrowing cells included |
| `Paint.TimedOrdersAsRates` | web/app.js:530-549 | at an hour or a day, colours order the cells with reports then as their rates then |
| `Paint.CountsOrderAsCounts` | web/app.js:536-548 | for counts, a cell is coloured iff its count is positive, by its multiple of the plain mean of those, the time's own where one is asked for |
| `Paint.NothingToCompare` | web/app.js:146-147 | a layer in which nothing was counted has no average and paints no cell |
| `Paint.TracksApart` | web/app.js:530-549 | nothing a layer says of the other track moves a cell's ratio or the averages |
| `Paint.FillIsTwin` | web/app.js:582-616 | the whole fill expression is neutral iff cellRatio is null and otherwise the ramp at that ratio, which a hinge pins to its step |
| `Paint.ValueRampStops` | web/app.js:102-111 | spreading between hinges gives steps 0.15, 0.1 and 0.2 of the average apart |
| `Paint.RampRises` | web/app.js:82-87 | the stops rise strictly, as interpolate requires, and each hinge sits on its step |
| `Paint.PositionRises` | web/app.js:89-101 | a higher ratio never gets a greener colour, strictly redder up to the last stop, which holds beyond |

## Left out

- Network and provider code: downloads, geocoding, routing clients, the FastAPI wiring, security headers, the service worker.
- H3, PostGIS geometry, gzip, JSON, SHA-256 and libpq, beyond the parameters named above.
- Floating-point rounding, and SQL `round()` on output.
- DOM rendering, MapLibre calls, popups, URL syncing, labels and formatting. A ramp colour is its step and the share of the way to the next, not its channels.
- Which zone a path of the API belongs to, and how a client is told apart.
- `SingleFlight.NeverStale`: versions stand for the refresh stamp; a follower's timeout is a step that may happen at any time, and the connection pool is not modelled.
- `ResponseCache.Cache.Store`: the ordered dictionary is a sequence of entries reassigned by the methods, so sharing of entries with other holders is not modelled.
- `Executor.Ops.RunSteps`: one converge process at a time; two processes writing the ledger at once, and a database error while opening or closing a ledger row, are not modelled. A step's outcome is a parameter.
- `Planner.EveryCityConverges`: runs in which a step fails, and the incremental pulls that run between converge runs, are not part of it.
- `Census.IncrementalIsFull`: loading, trimming and cross-vintage checks of the blocks are one reload step; vintages and timestamps of a row are not stored.
- `RangeQuery.RangeIsDirect`: the incremental rebuild of the rollup from the earliest changed day, and the resolutions it is kept at, are not modelled.
- `RouteScorer.Scorer.Load`: the start time of a route, sampling it into stretches, and grouping the baseline rows by hour and day are not modelled; times and baselines are inputs.
- `Navigation.NavProgress`: the text of the steps, and the off-route counter of its caller.
- `LayerRequests.MapPage.LoadLayer`: resetting the hovered cell between showing the box and the request (web/app.js:811-816) is taken not to raise; if it did, the box would stay up until the next load.
- `LayerRequests.MapPage.Settle`: what a layer contains; the boot message written before the first load.
- `Paint.FillIsTwin`: the count of borrowing cells shown in the legend.
- `safestIndex`, `routeCardModel`, `scheme_params` and the tables of labels: single sorts and lookups.

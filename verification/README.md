# Verified model of the order management system

A Dafny model of a C++ order management system that wraps a smart order router, with
proofs about every run of it. `dafny verify dfyconfig.toml` checks the whole project.

A strategy signal becomes a parent order. The router splits it over the books of up to
five venues, children are sent, and execution reports, cancels and timeouts come back.
What is left of a parent is rerouted until it closes. The model covers that lifecycle
with all its tables (order pools, child slots, positions, open-lots counters, timer
wheel, reject queue), the router's merge and greedy fill, the timer wheel, the
single-producer single-consumer ring, the reduce-only clamp, native against canonical
lots, and the TWAP scheduler.

## How it is laid out

Each piece is written twice. Functions on values say what a step does, and lemmas speak
about those. Where the source updates state in place, a class has the source's fields,
loops and arrays, and each of its methods is proved to compute exactly the function of
the same step.

| modules | what they hold |
|---|---|
| `Types`, `Modular`, `RealArith` | shared vocabulary, C++ rounding and truncation over exact reals, small arithmetic facts |
| `Books`, `KWayMerge`, `Router`, `RoutingEngine` | books and eligible levels, the merge on values, split and placement with optimality, the engine with cursors, workspace and output buffer |
| `TimerWheel`, `TimerWheelObject` | the ring and its small-step runs, the ring object |
| `SpscQueue` | the two-thread protocol and the queue object |
| `OrderPool`, `OrderPoolObject` | records, LIFO pools, ownership; the pool object |
| `Positions` | position updates, average entry, the reduce-only clamp, the position table |
| `Accounts`, `Lifecycle` | the audit trail of admitted orders, every step of the execution core |
| `LifecycleInvariant`, `LifecycleSteps` | the one global invariant, and that every step and every run keeps it |
| `LifecycleHistory` | what no step can undo |
| `Dispatching`, `Admission`, `Reports`, `Quotes` | exactly what a dispatch, a signal, a reroute, a report and a timeout come to, and where every child goes |
| `LifecycleTheorems`, `LifecycleTies`, `LedgerReplay`, `TimeoutRuns` | what every run guarantees about orders, timers, rejects and positions |
| `LiveExposure`, `ReduceOnly`, `ReduceOnlySafety` | lots live at venues, the counter the reduce-only clamp reads, and exactly when the clamp is safe |
| `DeepBook`, `OneOrder`, `RerouteRun`, `LapEarly` | books and states to build runs from, the run on which reduce-only fails, the run on which a timer fires a lap early |
| `ExecutionCore` | class `Manager`: one method per event, in place |
| `LotConversion`, `Twap` | lot conversion, the TWAP scheduler |

`Account` is an audit trail: one record per admitted order, holding what it asked for
and what became of its lots. The source only logs these facts. The counters it does
keep are proved to be sums over the accounts.

## What the environment is assumed to do

- Books are best price first, at most 20 levels a side, with positive prices and
  non-negative sizes; there are one to five venues and all share one tick size.
- A signal's size is not negative. An execution report with a child id in range names an
  allocated child that is still live, and a fill is for 1 to that child's leaves.
- The notional gate's verdict, the verdict of the risk checks other than the reduce-only
  clamp, the books and the clock are inputs, arbitrary at every call. Fees, latency
  penalty and fill rate are arbitrary per-venue reals.
- The lifecycle counts in canonical lots. Conversion is treated in `LotConversion`.

## Where the code does not keep a promise

- Reduce-only (oms/oms_types.hpp:74-82). The clamp compares against a counter of open lots
  from which a reroute's lots are missing, so it can let too much through.
  `RerouteRun.ReduceOnlyFlipsAfterReroute` is a run from construction in which a long 10 ends
  short 4 although every later admission is reduce-only. The exact condition for one clamp
  call, readable before it, is that the counter covers the lots live on that side or that
  the order would fit uncut: `ReduceOnlySafety.AdmissionSafeIff` for admission,
  `ReduceOnlySafety.RerouteSafeIff` for the re-clamp of a reroute,
  `ReduceOnlySafety.AdmissionsSafeIffCovered` for all sizes at once. Over every run whose
  clamp calls meet it, with any number of reroutes, the position only shrinks
  (`ReduceOnlySafety.PositionOnlyShrinks`). Every call up to and including a side's first
  reroute meets it (`ReduceOnlySafety.FirstRerouteFits`). A reroute lowers the counter's lead
  over the live lots by all it sends (`ReduceOnly.RerouteUncovers`), which uncovers the side
  when the lead was smaller than that.
- "Greedy is optimal here" (README.md:346-349) holds for every book, limit, side and target
  exactly when no venue's canonical minimum exceeds one lot (`Router.OptimalIffNoMinimums`);
  `Router.WantedButSkipped` is the failing book for any larger minimum.
- A timer can fire a lap early. `LapEarly.FiresLapEarly` is a run from construction, for every
  ring and every child timeout the ring can hold: after a stall of one lap, a timeout reroutes
  its order in two legs, and the second leg's timer lands in an entry of the slot being scanned
  that the scan has yet to reach. `TimerWheel.OnTimeIffInReach` is the exact condition for one
  timer; over whole runs `TimeoutRuns.FiresInItsBucket` shows that dispatches less than a lap
  ahead are never early, and `TimeoutRuns.NoTimeoutOutlived` that dispatches at least one bucket
  ahead are never late.
- A child that is partially filled past its deadline is promised to time out
  (README.md:420-426). It never does: the first fill drops its timer for good
  (`Reports.PartialFillDisarms`), and over whole runs a child has a timer only as long as it
  has had no fill (`LifecycleTheorems.TimersNameLiveChildren`). A child without a fill has one
  unless its slot of the ring was full when it was sent (`Dispatching.DispatchSends`).
- Converting partial fills one by one is exact for every pair of fills exactly when a native
  lot is a whole number of canonical lots (`LotConversion.AdditiveIffWhole`).
- A positive USD limit below half a tick is dropped (`LifecycleTheorems.LimitTakesEffect`).

## Model

| member | source | states |
|---|---|---|
| `LifecycleTheorems.NoParkedOrders` | oms/execution_core.cpp:404-424 | after every event of every run, an allocated parent has leaves left and a recorded, allocated, live child that can still report |
| `LifecycleTheorems.OwnershipIsExact` | oms/execution_core.cpp:481-490 | in every reachable state a child id is allocated exactly when one slot of one allocated parent records it, no free list holds an id twice, and the id handed out next is not in use |
| `LifecycleTheorems.NoOverfill` | oms/execution_core.cpp:388-411 | children of a parent never carry more than its leaves, leaves are total minus cum, and no order is filled beyond the size admitted, through any number of reroutes |
| `LifecycleTheorems.NoLiveChildAtFill` | oms/execution_core.cpp:404-411 | when a fill completes a parent every child it records is terminal, so the freeing loop frees no live child |
| `LifecycleTheorems.OrderConserved` | oms/execution_core.cpp:504-544 | each lot of an admitted order is filled, cut by a reduce-only shrink, open or reported as rejected, and an open order has reported nothing |
| `LifecycleTheorems.LotsConserved` | oms/execution_core.cpp:320-332 | over whole runs the lots admitted equal filled plus shrunk plus leaves of open parents plus lots returned through the reject queue, open orders and allocated parents being the same |
| `LifecycleTheorems.LimitNeverCrossed` | oms/execution_core.cpp:146-149 | every child ever sent for an order with a limit, maker or taker, first dispatch or reroute, is priced no worse than the limit |
| `LifecycleTheorems.LimitTakesEffect` | oms/execution_core.cpp:147-149 | a positive USD limit becomes the nearest tick, and an effective limit exactly when it is at least half a tick |
| `LifecycleTheorems.PositionLedger` | oms/execution_core.cpp:388-402 | net lots equal buys minus sells over all orders ever, and a parent's running average times its filled lots is the exact value of its fills, across reroutes |
| `LifecycleTheorems.TimersNameLiveChildren` | oms/execution_core.cpp:366-367 | every active wheel entry names an allocated live child that has had no fill, and no child has two entries, although ids are recycled and callbacks insert timers |
| `LifecycleTheorems.HistoryIsKept` | oms/order_pool.hpp:27-58 | from any point of a run to any later one, the terms of an order stay fixed, outcomes only accumulate, what was sent stays sent and a closed order stays closed |
| `LedgerReplay.PositionsReplayFills` | oms/position_tracker.hpp:27-50 | along any run an instrument's net and average entry are what replaying the run's fills from flat gives, net is bought minus sold, and an open position's average lies within the prices filled since it was last flat or flipped |
| `LedgerReplay.StepMoves` | oms/execution_core.cpp:401-402 | an event moves net and average entry of an instrument by exactly the fill it reports on it and by nothing else |
| `LifecycleTies.SignalAnswered` | oms/execution_core.cpp:82-208 | a signal is admitted with its limit in ticks, or turned down with exactly one reject echoing it and no other trace; an admission rejects at most its own order |
| `Admission.SignalDecided` | oms/execution_core.cpp:82-203 | an order is added if and only if the gate and the risk checks passed, a parent was free, the instrument exists, the clamp left something and the router found a leg; otherwise the one reject carries the reason of the first of these that failed |
| `Admission.SignalSends` | oms/execution_core.cpp:174-290 | the admitted order is the signal's, for the clamped size, and goes out as the router splits that size on its side, limit and lot size, in its style, the legs without a child released from the reservation |
| `Admission.RerouteSends` | oms/execution_core.cpp:464-549 | a reroute sends exactly what the re-clamp allows, as a taker split of the books now, with the freed children to hand out; what was cut is counted and released, unsent legs are released, and an order left without a child closes with one reject for its lots and the right reason |
| `Dispatching.DispatchSends` | oms/execution_core.cpp:228-333 | as many legs go out, in order, as legs, slots and free children allow; slot k records a child with leg k's venue, price, lots and style on the parent's side, timed unless its slot of the wheel is full; the account records the same and exactly the legs left over are released |
| `Dispatching.InsertTimes` | oms/execution_core.cpp:269-277 | a child just sent has a timer at its due time unless every entry of that slot is taken |
| `Quotes.EveryChildWasQuoted` | oms/execution_core.cpp:244-290 | over whole runs every child ever sent, first dispatch or reroute, is on its order's side and at an enabled venue that quoted its price, a taker on the opposite side and a maker at the touch of its own, in a book an event of the run showed the core |
| `Quotes.ChildrenOnTheirSide` | oms/execution_core.cpp:253-260 | in every reachable state an allocated child has the side of its parent and of its order |
| `Quotes.LegsQuoted` | sor/routing_engine.cpp:148-176 | every leg the router answers with is quoted by its venue in the books it was asked about |
| `Reports.FillBooks` | oms/execution_core.cpp:361-390 | a fill moves its lots from leaves to cum on the child and the parent, finishes the child exactly when it takes all it had left, and drops the child's timer and no other |
| `Reports.FillCounts` | oms/execution_core.cpp:388-402 | net moves by the lots on the order's side, its open lots shrink by as many, no other instrument changes, and the account books the lots and their value |
| `Reports.FillAverages` | oms/execution_core.cpp:393-399 | the parent's average times its filled lots grows by the value of the fill |
| `Reports.FillSettles` | oms/execution_core.cpp:404-424 | the order closes exactly when the fill completes it, is rerouted exactly when it does not and nothing else of the order is out, and otherwise waits |
| `Reports.CancelBooks` | oms/execution_core.cpp:430-451 | a cancel or reject ends the child, drops its timer and releases exactly what it had left |
| `Reports.PartialFillDisarms` | oms/execution_core.cpp:366-367 | a fill in part always leaves its child live and without a timer |
| `Reports.AckBooks` | oms/execution_core.cpp:348-348 | an acknowledgement makes the child pending again, even after a fill in part, and touches nothing else |
| `Reports.CancelSettles` | oms/execution_core.cpp:454-461 | the order is rerouted exactly when nothing else of it is out, and never closes here |
| `Reports.TimeoutCancels` | oms/timer_wheel.hpp:125-146 | a due timer cancels its child through the cancel path, and an inactive entry does nothing |
| `Reports.UnwindForces` | oms/execution_core.hpp:60-63 | the switch makes every signal on its instrument reduce-only while it is on, and touches no other instrument |
| `LifecycleTies.RejectsNameTheirOrder` | oms/execution_core.cpp:320-332 | over whole runs a reject that closes an admitted order names that order's instrument, side and strategy, for lack of liquidity or of child slots |
| `LifecycleTies.TimeoutsFireOnTime` | oms/execution_core.cpp:269-277 | in every reachable state an active timer belongs to a live child and is due that child's maker or taker timeout after it was sent; from there, under any sequence of wheel steps, it fires within a tick of that if in reach and not cancelled |
| `TimeoutRuns.NoTimeoutOutlived` | oms/timer_wheel.hpp:109-146 | over every run of the core whose dispatches are timed at least one bucket ahead of the wheel, every active timer is a live child's own, stands in the slot of its due time and is still ahead of the clock, so once the wheel has caught up no child with a timer is a tick past its timeout |
| `TimeoutRuns.FiresInItsBucket` | oms/timer_wheel.hpp:36-42 | every timer any tick of such a run fires, at any clock step and entry, is within a tick of its due time if dispatches are less than a lap ahead, and at exactly a lap is on time or one whole lap early |
| `TimeoutRuns.TickAllInFront` | oms/timer_wheel.hpp:109-146 | a tick with all its callbacks keeps every timer ahead of the clock and moves the clock by its steps |
| `TimeoutRuns.TimeoutsInFront` | oms/execution_core.hpp:32-33 | dispatches are timed 1 to m buckets ahead when timeouts are at least a tick and the caller's clock is between the wheel's and m ticks past it less the timeout |
| `TimeoutRuns.ReportRearms` | oms/execution_core.cpp:335-351 | a report, with whatever reroute follows, sets timers only at the current clock plus a configured timeout and leaves every other timer it keeps as it was |
| `LapEarly.FiresLapEarly` | oms/timer_wheel.hpp:125-146 | a run from construction, for all capacities with two entries a slot and all timeouts within a lap, in which a scan fires a child just sent whose deadline is a whole lap ahead |
| `LapEarly.TimeoutRearms` | oms/execution_core.cpp:25-42 | the timeout of an order's only child, on a book that fills it in two legs, replaces its timer by two, set at the clock of the callback |
| `LifecycleTies.StepTied` | oms/execution_core.cpp:66-80 | every event keeps timers dated by their children and rejects naming their orders |
| `LifecycleTies.SendTied` | oms/execution_core.cpp:234-277 | the child id handed out has no timer left, so recycling its record re-dates no other entry |
| `ReduceOnlySafety.PositionOnlyShrinks` | oms/risk_engine.hpp:126-156 | from no open order on the instrument, over every run, reroutes included, whose admissions on it are reduce-only or unwind-forced and whose clamp calls each find the live lots covered by the counter or the order fitting uncut, the closing side's live lots fit inside the position, which keeps its sign and does not grow |
| `ReduceOnlySafety.AdmissionSafeIff` | oms/execution_core.cpp:113-123 | a reduce-only or unwind-forced signal keeps its side's live lots inside the position on every book if and only if the counter covers the lots live on that side or the order would fit uncut |
| `ReduceOnlySafety.AdmissionsSafeIffCovered` | oms/risk_engine.hpp:142-155 | every reduce-only signal on every book does so if and only if the counter covers the live lots |
| `ReduceOnlySafety.RerouteSafeIff` | oms/execution_core.cpp:500-549 | rerouting a reduce-only order keeps its side inside the position on every book if and only if the counter covers the side's live lots or all its leaves would fit |
| `ReduceOnlySafety.FirstRerouteFits` | oms/position_tracker.hpp:52-60 | while no order of a side was rerouted before, every clamp call on it meets the condition, the re-clamp of the first reroute included |
| `ReduceOnlySafety.RunBounded` | oms/execution_core.cpp:66-80 | along a run whose clamp calls fit, the closing side's live lots stay within what it may still close, from any state in which they do |
| `LiveExposure.RerouteAddsUnreserved` | oms/execution_core.cpp:464-549 | a reroute adds what it sends, at most the re-clamped leaves, to its side's live lots, nothing to any other side, and never raises a counter |
| `LiveExposure.SignalExposure` | oms/execution_core.cpp:174-208 | a signal adds at most its clamped size to its own side's live lots and nothing to any other |
| `LiveExposure.FillExposure` | oms/execution_core.cpp:353-402 | a fill takes its lots off its side's live lots and moves net by as much |
| `LiveExposure.CancelExposure` | oms/execution_core.cpp:427-451 | a cancel takes its child's leaves off its side's live lots and leaves net alone |
| `ReduceOnly.CounterStaysWithin` | oms/risk_engine.hpp:126-156 | from a quiet state, if every admission on the instrument is reduce-only or unwind-forced and no such order was rerouted, the closing side's counter itself lies between 0 and the position |
| `ReduceOnly.CounterCoversExposure` | oms/position_tracker.hpp:52-60 | while no order of a side was rerouted its open-lots counter is at least the lots live at venues on that side |
| `ReduceOnly.RerouteUncovers` | oms/execution_core.cpp:427-462 | when the last live child of an order is cancelled the counter's lead over its side's live lots falls by at least everything sent again, and lots are sent again exactly when the order stays open |
| `RerouteRun.ReduceOnlyFlipsAfterReroute` | oms/execution_core.cpp:464-549 | for all capacities, a run from construction, reduce-only after a quiet long 10, with one reroute, that ends short 4 |
| `RerouteRun.CancelAndReroute` | oms/execution_core.cpp:427-462 | on a deep book, cancelling the only child of a reduce-only order sends all of it again and leaves its reservation released |
| `Positions.ClampIsTight` | oms/risk_engine.hpp:126-156 | a clamped order plus everything committed on its side fits inside the position, and the clamp withholds nothing that would have fitted |
| `Positions.ClampSafeIff` | oms/risk_engine.hpp:142-155 | with lots live on the closing side, a clamped order keeps the side inside the position exactly when the counter covers them or the order would fit uncut |
| `Positions.NetIsBuysMinusSells` | oms/position_tracker.hpp:27-34 | net after any history of fills is buys minus sells |
| `Positions.AverageWithinBasis` | oms/position_tracker.hpp:36-49 | the average entry of an open position lies between the lowest and highest price filled since it was last flat or flipped |
| `Positions.AverageAfterFill` | oms/position_tracker.hpp:36-49 | the average after a fill is none when flat, the fill's price after a flip, and otherwise the value of old and new lots together over their number |
| `Positions.AverageIsVolumeWeighted` | oms/position_tracker.hpp:36-49 | building a position from flat, long or short, its average is the volume-weighted mean of its fills |
| `Positions.ClampReduceOnly` | oms/risk_engine.hpp:126-156 | a signal that neither asks for reduce-only nor is forced to keeps its whole size, and no clamp adds lots |
| `Positions.PositionTable.OnFill` | oms/position_tracker.hpp:27-50 | in place, one instrument moves by one fill and no other changes |
| `Positions.PositionTable.ReserveOpen` | oms/position_tracker.hpp:52-55 | in place, one side of one instrument grows by the lots |
| `Positions.PositionTable.ReleaseOpen` | oms/position_tracker.hpp:57-60 | in place, one side of one instrument shrinks by the lots |
| `Positions.PositionTable.SetUnwind` | oms/execution_core.hpp:60-63 | in place, only the unwind switch of one instrument changes |
| `LifecycleSteps.RunKeeps` | oms/execution_core.cpp:66-80 | every run of signals, reports, ticks and unwind switches keeps the global invariant |
| `LifecycleSteps.StepKeeps` | oms/execution_core.cpp:82-208 | every single event keeps the global invariant |
| `LifecycleSteps.SignalKeeps` | oms/execution_core.cpp:82-208 | a signal keeps the invariant on every branch: gate, pool exhausted, reduce-only violation, risk reject, no liquidity, dispatched |
| `LifecycleSteps.OrderKeeps` | oms/execution_core.cpp:174-208 | the routed branch asks the router for a positive target and ends with a live child out or the parent freed |
| `LifecycleSteps.AdmitKeeps` | oms/execution_core.cpp:204-206 | admission opens one account for the parent's size, leaves every earlier account and every other parent as it was, and the parent starts without children |
| `LifecycleSteps.RefuseKeeps` | oms/execution_core.cpp:131-134 | a refused signal leaves free lists, children, other parents, orders, positions and timers as they were and counts against no order |
| `LifecycleSteps.HandleFillKeeps` | oms/execution_core.cpp:353-425 | a fill keeps the invariant whether it closes the parent, reroutes its leftovers or waits |
| `LifecycleSteps.HandleCancelKeeps` | oms/execution_core.cpp:427-462 | a cancel or reject keeps the invariant, and its parent still has leaves |
| `LifecycleSteps.ReportKeeps` | oms/execution_core.cpp:335-351 | every kind of execution report keeps the invariant |
| `LifecycleSteps.CheckEntryKeeps` | oms/timer_wheel.hpp:125-146 | a due entry always names a live child, and cancelling it mid-scan keeps the invariant |
| `LifecycleSteps.CheckSlotKeeps` | oms/timer_wheel.hpp:125-146 | scanning a slot keeps the invariant although callbacks insert and cancel timers in it |
| `LifecycleSteps.TickKeeps` | oms/timer_wheel.hpp:109-115 | any number of clock steps keeps the invariant |
| `LifecycleSteps.UnwindKeeps` | oms/execution_core.hpp:60-63 | switching unwind mode keeps the invariant |
| `LifecycleSteps.InitialHolds` | oms/order_pool.hpp:141-149 | the state after construction satisfies the invariant |
| `LifecycleInvariant.FillKeeps` | oms/execution_core.cpp:361-402 | the bookkeeping of a fill keeps child, parent, account, position, reservation and timer in agreement |
| `LifecycleInvariant.AverageIsExact` | oms/execution_core.cpp:393-399 | the running average times the filled lots is the old value plus the value of the fill |
| `LifecycleInvariant.CancelKeeps` | oms/execution_core.cpp:430-451 | the bookkeeping of a cancel keeps all tables in agreement and never leaves the parent without leaves |
| `LifecycleInvariant.AckKeeps` | oms/execution_core.cpp:348-348 | an acknowledgement keeps the invariant |
| `LifecycleInvariant.DispatchKeeps` | oms/execution_core.cpp:228-333 | dispatch ends with lots at a venue or with the parent closed and its leaves reported, wherever the loop stops |
| `LifecycleInvariant.SendKeeps` | oms/execution_core.cpp:234-290 | one iteration of the dispatch loop keeps the invariant, every child sent being on its order's side and within its limit, and what is out plus what is still to send within the order and its reservation |
| `LifecycleInvariant.RerouteKeeps` | oms/execution_core.cpp:464-549 | rerouting a parent without live children restores the invariant on all four exits |
| `LifecycleInvariant.ClearKeeps` | oms/execution_core.cpp:481-490 | freeing the finished children leaves the parent childless and every other parent untouched |
| `LifecycleInvariant.ShrinkKeeps` | oms/execution_core.cpp:500-512 | the reduce-only re-clamp moves lots from leaves to the shrunk count and keeps all tables in agreement |
| `LifecycleInvariant.FilledKeeps` | oms/execution_core.cpp:404-411 | closing a filled parent frees all its children once and settles its account |
| `LifecycleInvariant.ReducedKeeps` | oms/execution_core.cpp:514-525 | closing a parent with nothing left to reduce settles its account |
| `LifecycleInvariant.AbandonKeeps` | oms/execution_core.cpp:533-544 | closing a childless parent reports exactly its leaves and settles its account |
| `LifecycleInvariant.RoutesFit` | oms/execution_core.cpp:210-219 | what the router returns for a parent's leaves is positive, fits them and respects its limit, for either routing style |
| `LifecycleHistory.StepEvolves` | oms/execution_core.cpp:66-80 | one event leaves the terms of every order fixed, only adds to outcomes, and never tops up a reservation |
| `LifecycleHistory.SignalAdmits` | oms/execution_core.cpp:82-208 | a signal admits at most one order, on its instrument and side, for exactly the clamped size, and touches no other order |
| `OrderPool.LoadZeroIffAllTerminal` | oms/execution_core.cpp:551-559 | the loop over child slots finds no live child exactly when the children carry no lots |
| `OrderPool.FreeAll` | oms/execution_core.cpp:481-488 | the freeing loop appends exactly the recorded children to the free list, in slot order |
| `OrderPool.DispatchKeepsPool` | oms/order_pool.hpp:102-111 | adding a child taken from the free list keeps ownership exact and raises only its parent's load |
| `OrderPool.OpenKeepsPool` | oms/order_pool.hpp:91-100 | taking a parent from the free list hands out a free id and disturbs no other parent |
| `OrderPool.CloseKeepsPool` | oms/order_pool.hpp:113-121 | releasing a parent with its children keeps ownership exact and disturbs no other parent |
| `OrderPool.ReportKeepsPool` | oms/execution_core.cpp:361-390 | changing a child and its parent together keeps the pools consistent when the parent loses no more than the child |
| `OrderPool.AllocFreeRestores` | oms/order_pool.hpp:91-116 | freeing the parent just allocated restores the free list |
| `OrderPoolObject.Pools.constructor` | oms/order_pool.hpp:141-149 | both free lists hold every id once |
| `OrderPoolObject.Pools.TakeParent` | oms/order_pool.hpp:91-100 | pops the last id freed and blanks its record, or fails on an empty list |
| `OrderPoolObject.Pools.TakeChild` | oms/order_pool.hpp:102-111 | pops the last id freed and blanks its record, or fails on an empty list |
| `OrderPoolObject.Pools.ReturnParent` | oms/order_pool.hpp:113-116 | pushes the id and changes nothing else |
| `OrderPoolObject.Pools.ReturnChild` | oms/order_pool.hpp:118-121 | pushes the id and changes nothing else |
| `OrderPoolObject.Pools.ReturnSlots` | oms/execution_core.cpp:408-409 | the loop over child slots frees what the specification frees |
| `OrderPoolObject.Pools.AreAllTerminal` | oms/execution_core.cpp:551-559 | true exactly when no recorded child is live |
| `ExecutionCore.Manager.constructor` | oms/execution_core.cpp:16-56 | the constructed object is in the initial state |
| `ExecutionCore.Manager.OnStrategyOrder` | oms/execution_core.cpp:82-208 | computes in place the signal step that `Admission.SignalDecided` decides, and keeps the invariant |
| `ExecutionCore.Manager.RouteOrder` | oms/execution_core.cpp:174-208 | routes with a positive target, then refuses or admits and dispatches |
| `ExecutionCore.Manager.FindLegs` | oms/execution_core.cpp:174-184 | leaves the router's answer in the child buffer and the rest of the core unchanged |
| `ExecutionCore.Manager.DispatchChildOrders` | oms/execution_core.cpp:228-333 | computes in place the dispatch step that `Dispatching.DispatchSends` describes leg by leg |
| `ExecutionCore.Manager.SendAll` | oms/execution_core.cpp:234-290 | the loop sends a prefix of the legs and stops exactly when the parent is full or no child is free |
| `ExecutionCore.Manager.UnsentLots` | oms/execution_core.cpp:301-302 | the gap is the sum of the legs not sent |
| `ExecutionCore.Manager.FinishSending` | oms/execution_core.cpp:292-333 | releases the gap and closes a parent that got nothing out |
| `ExecutionCore.Manager.OnExecutionReport` | oms/execution_core.cpp:335-351 | computes the report step in place and keeps the invariant |
| `ExecutionCore.Manager.HandleFillReport` | oms/execution_core.cpp:353-425 | computes the fill step in place |
| `ExecutionCore.Manager.HandleCancelReject` | oms/execution_core.cpp:427-462 | computes the cancel step in place |
| `ExecutionCore.Manager.RerouteLeaves` | oms/execution_core.cpp:464-549 | computes the reroute step in place |
| `ExecutionCore.Manager.ShrinkToPosition` | oms/execution_core.cpp:500-512 | computes the reduce-only re-clamp in place |
| `ExecutionCore.Manager.OnChildTimeout` | oms/execution_core.cpp:25-42 | computes the timeout step in place and keeps the invariant |
| `ExecutionCore.Manager.CheckSlotEntries` | oms/timer_wheel.hpp:125-146 | the scan with callbacks computes the slot step in place |
| `ExecutionCore.Manager.OnTick` | oms/timer_wheel.hpp:109-115 | takes whole clock steps until less than one separates the wheel from the caller, keeping the invariant |
| `ExecutionCore.Manager.SetUnwindMode` | oms/execution_core.hpp:60-63 | an instrument out of range is ignored, otherwise only its switch changes |
| `Router.SplitIsOptimal` | sor/routing_engine.cpp:187-277 | with canonical minimums of at most one lot the split takes min(target, total eligible) lots and no allocation of that many lots over the eligible levels of all venues costs less in effective ticks, for BUY and SELL |
| `Router.SplitCheapestAfterFees` | sor/routing_engine.cpp:108-112 | measured by price and fee of the venues themselves no such allocation pays less by more than one tick per lot |
| `Router.OptimalIffNoMinimums` | sor/routing_engine.cpp:209-228 | the split is complete and cheapest on every book, limit, side and target exactly when no venue's canonical minimum exceeds one lot |
| `Router.WantedButSkipped` | sor/routing_engine.cpp:215-228 | for any minimum above one lot, a book that offers the wanted lot and a split that takes nothing |
| `Router.MergeCorrect` | sor/routing_engine.cpp:134-177 | the slice array is sorted by effective ticks, fits the buffer, and restricted to any venue is that venue's eligible levels, each once, in level order |
| `Router.GreedyShape` | sor/routing_engine.cpp:209-251 | legs lie between their venue's minimum and their slice's size, at most the target is taken, and only the last leg may be partial, and only when the target is reached |
| `Router.GreedyTakesAll` | sor/routing_engine.cpp:209-251 | without minimums above one lot the fill takes min(target, total) lots |
| `Router.GreedyCheapest` | sor/routing_engine.cpp:209-251 | exchange argument: any allocation of at least as many lots pays at least the greedy cost plus the cheapest price per extra lot |
| `Router.SlicesSum` | sor/routing_engine.cpp:134-177 | any weight sums to the same over the merged array and over the eligible levels of the venues |
| `Router.SplitContract` | sor/routing_engine.cpp:279-291 | with one tick size the split is positive, within target, buffer and limit |
| `Router.PlaceIsBest` | sor/routing_engine.cpp:317-347 | the maker order goes for the whole target to the earliest cheapest postable touch, and to none only when there is none |
| `Router.PlaceCheapestAfterFees` | sor/routing_engine.cpp:317-347 | no postable touch beats the chosen one by more than a tick, measured by quote and maker fee |
| `Router.PlaceContract` | sor/routing_engine.cpp:293-360 | with one tick size the placement is for the target and within the limit |
| `Books.EligibleIsExact` | sor/routing_engine.cpp:46-60 | a level is eligible exactly when within the limit, at or above the minimum and not rounded away, once, in level order, cheapest first |
| `Books.PastLimitNothingLeft` | sor/routing_engine.cpp:50-53 | stopping at the first level past the limit loses nothing |
| `Books.EligibleSound` | sor/routing_engine.cpp:152-176 | eligible slices have positive size and price and respect the limit |
| `Books.EffectiveIsCost` | sor/routing_engine.cpp:105-114 | an eligible slice is a quoted level of an enabled venue, and its effective ticks are its signed price plus the taker adjustment of the best quote to the nearest tick |
| `Books.LotsOnOffer` | sor/routing_engine.cpp:152-170 | its lots are the level's, capped at the venue's maximum, times the fill rate, in canonical lots, within the two truncations and the final rounding |
| `Books.MinimumsAreNearest` | sor/routing_engine.cpp:120-120 | both minimums are the venue's own to the nearest native and the nearest canonical lot |
| `KWayMerge.Best` | sor/routing_engine.cpp:136-146 | the chosen cursor has the cheapest head, the earliest on ties, and none is chosen exactly when all are exhausted |
| `KWayMerge.MergeSorted` | sor/routing_engine.cpp:134-177 | merging queues sorted by cost gives a sequence sorted by cost |
| `KWayMerge.MergeProjects` | sor/routing_engine.cpp:134-177 | the merge restricted to a venue is that venue's queue, whole and in order |
| `RoutingEngine.SeekNextValid` | sor/routing_engine.cpp:46-60 | the cursor stops at the next passing level, or is exhausted exactly when no eligible level is left |
| `RoutingEngine.Engine.OpenCursors` | sor/routing_engine.cpp:93-128 | each cursor has exactly its venue's passing levels ahead of it |
| `RoutingEngine.Engine.ScanHeads` | sor/routing_engine.cpp:136-146 | the linear scan finds the cheapest live cursor, the earliest on ties |
| `RoutingEngine.Engine.BuildCostSlices` | sor/routing_engine.cpp:74-177 | the workspace ends up holding exactly the merged slice array; the buffer bound never cuts it short |
| `RoutingEngine.Engine.GreedyFill` | sor/routing_engine.cpp:187-277 | the buffer ends up holding the split, and filled plus unfilled is the target |
| `RoutingEngine.Engine.CalculateOptimalSplit` | sor/routing_engine.cpp:279-291 | both phases together compute the split, which is cheapest after fees, and the unfilled lots |
| `RoutingEngine.Engine.CalculateMakerPlacement` | sor/routing_engine.cpp:293-360 | the loop computes the placement, which is the best postable touch |
| `TimerWheel.InsertFirstFit` | oms/timer_wheel.hpp:71-88 | a timer goes to the lowest inactive entry of its deadline's slot if there is one, otherwise nothing changes, and a child without a timer has one afterwards exactly when the slot had room |
| `TimerWheel.ArmedTimerFires` | oms/timer_wheel.hpp:71-146 | an uncancelled timer whose slot had room is in its lowest free entry and fires in its deadline's bucket exactly when in reach; in reach it fires within a tick, never a full tick early on the caller's clock, and before a tick call a tick past the deadline returns |
| `TimerWheel.FiresOnTime` | oms/timer_wheel.hpp:109-146 | the same for any active entry at any point of any run, for any clock phase |
| `TimerWheel.Lifetime` | oms/timer_wheel.hpp:109-146 | whatever is armed, cancelled or fired around it, an uncancelled entry is either fired at the visit fixed when it was armed or still there untouched |
| `TimerWheel.OnTimeIffInReach` | oms/timer_wheel.hpp:36-42 | the entry's next visit is in its deadline's bucket exactly when the deadline is in reach |
| `TimerWheel.FiresOnce` | oms/timer_wheel.hpp:125-146 | over any run in which a child is not armed again its timer fires at most once, and once it has, the child has no timer left |
| `TimerWheel.CancelRemoves` | oms/timer_wheel.hpp:91-105 | after cancel the child has no timer and every other child keeps its own |
| `TimerWheel.InsertArms` | oms/timer_wheel.hpp:71-88 | insertion arms at most the given child and keeps one entry per child |
| `TimerWheelObject.Ring.Insert` | oms/timer_wheel.hpp:71-88 | the loop inserts at the first fit and succeeds exactly when the deadline's slot has an inactive entry |
| `TimerWheelObject.Ring.Cancel` | oms/timer_wheel.hpp:91-105 | the scan clears the first active entry of the child, or changes nothing |
| `TimerWheelObject.Ring.TakeDue` | oms/timer_wheel.hpp:125-146 | an active entry is cleared and its child returned, an inactive one is skipped |
| `SpscQueue.Linearizable` | oms/spsc_queue.hpp:17-34 | in every interleaving of the atomic steps, popped values are a prefix of pushed ones, at most N-1 are held, the slot being written is never the slot being read, and the callers' outcomes are those of a FIFO |
| `SpscQueue.StepRefinesFifo` | oms/spsc_queue.hpp:17-34 | every atomic step of either thread is a step of a bounded FIFO or invisible |
| `SpscQueue.InvRaceFree` | oms/spsc_queue.hpp:22-32 | writer and reader are never at the same slot |
| `SpscQueue.PushCompletes` | oms/spsc_queue.hpp:17-25 | a push with room when it begins succeeds in its four steps, however the consumer's steps fall in between |
| `SpscQueue.PopCompletes` | oms/spsc_queue.hpp:27-34 | a pop with an item when it begins returns the oldest one in its four steps, however the producer's steps fall in between |
| `SpscQueue.RefusalsReported` | oms/spsc_queue.hpp:17-34 | without room or items the call says so at its second step and is over |
| `SpscQueue.Queue.Push` | oms/spsc_queue.hpp:17-25 | appends, or fails exactly when N-1 values are held |
| `SpscQueue.Queue.Pop` | oms/spsc_queue.hpp:27-34 | removes the oldest value, or fails exactly when empty |
| `LotConversion.AdditiveIffWhole` | oms/execution_core.cpp:561-568 | converting two fills separately equals converting their sum, for all fills, exactly when a native lot is a whole number of canonical lots |
| `LotConversion.FillsConvertExactly` | oms/execution_core.cpp:383-390 | any number of partial fills converted one by one sum to the conversion of the total |
| `LotConversion.ChildNeverExceedsGrant` | oms/execution_core.cpp:252-252 | for every ratio of lot sizes a dispatched child represents at most what the split granted |
| `LotConversion.ChildLeavesRemainder` | oms/execution_core.cpp:252-252 | with a whole ratio it is short by the remainder modulo the native lot, and empty exactly when the grant is below one native lot |
| `Twap.RunIsExact` | algos/twap_scheduler.hpp:80-99 | for any clock readings and draws, every slice is at least one lot, and a run is done exactly when it emitted min(requested, total) slices and exactly when they add up to the total; nothing to trade emits nothing |
| `Twap.SlicesAreEven` | algos/twap_scheduler.hpp:84-93 | with size jitter off every slice before the last is within half a lot of total/n, or leaves exactly one lot for each slice after it |
| `Twap.SlicesAreEqual` | algos/twap_scheduler.hpp:84-93 | and if n divides the total all slices are equal |
| `Twap.SliceNearShare` | algos/twap_scheduler.hpp:84-93 | a slice before the last is its jittered share to the nearest lot, except that it is never empty and never takes a lot a later slice needs |
| `Twap.RunConserves` | algos/twap_scheduler.hpp:65-99 | lots emitted plus remaining and slices emitted plus left never change |
| `Twap.DueTicksFinish` | algos/twap_scheduler.hpp:65-70 | as many due ticks as slices left finish the run |
| `Twap.SliceLots` | algos/twap_scheduler.hpp:80-96 | a slice is at least one lot, leaves one lot per remaining slice, and the last takes the rest; the clamp's bounds are ordered |
| `Twap.ClampSliceCount` | algos/twap_scheduler.hpp:46-49 | the largest count within the request and the number of lots, one when either is not positive |
| `Twap.LastSliceDue` | algos/twap_scheduler.hpp:115-124 | with jitter fraction f at most 1 and ticks at their deadlines, slice k is due between k intervals of (duration/n) * (1-f), less a nanosecond each, and k intervals of (duration/n) * (1+f) after the start |
| `Twap.SlicesAreSpaced` | algos/twap_scheduler.hpp:65-70 | no slice goes out before its deadline, and two in a row are at least (duration/n) * (1-f) apart to within a nanosecond, on the caller's own clock |
| `Twap.DeadlineMoves` | algos/twap_scheduler.hpp:115-124 | the deadline moves by the sum of the drawn intervals and never back |
| `Twap.Scheduler.OnTick` | algos/twap_scheduler.hpp:65-70 | computes the tick step in place and returns the slice exactly when it fires |
| `Twap.Scheduler.MakeSlice` | algos/twap_scheduler.hpp:80-99 | emits the specified slice and takes it off the remainder |
| `Twap.Scheduler.ScheduleNext` | algos/twap_scheduler.hpp:115-124 | sets the next deadline, or never when done |

## Left out

- Logging, dashboard, the confirmation prompt of the notional gate: I/O; the gate's verdict is an input.
- Margin monitor and the fat-finger, position, notional and margin checks: their verdict is an arbitrary input, and check_position bounds a single order only.
- The formulas for fill rate, latency penalty and EWMA: arbitrary per-venue parameters.
- Floating-point rounding: prices and quantities that are doubles are exact reals.
- Reporting fields of a split (bps figures, adverse selection, spread capture): no decision depends on them.
- Outbound gateway queues: sending a child is its record and its timer; a full gateway queue is not modelled.
- Integer widths: lots, ticks and nanoseconds are unbounded; the ring masks are written as remainders.
- The unwind switch is an atomic that any thread may set and admission reads twice (oms/execution_core.cpp:121-123); the model reads it once per signal and does not toggle it between the callbacks of one tick.
- Weak memory: the ring protocol interleaves atomic steps, as its acquire and release pairs promise; reordering below that is not modelled.
- Reports for freed or terminal children: outside the assumed environment.
- Book ingestion (apply_sequence, recompute_cumulative, snapshots): easy members.
- Engine.OpenCursors: cursors are indexed by venue and unusable venues start exhausted, where the source compacts the usable ones; order and ties are the same.
- Scheduler.ScheduleNext: a negative drawn interval, possible only with a jitter fraction above 1, is cut at zero where the C++ cast is undefined.

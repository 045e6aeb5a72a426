# Verified model of claude-pool

claude-pool keeps pre-started `claude` processes ("workers"), hands each one a single
prompt and kills it afterwards. This directory models the daemon in Dafny and proves what
its concurrency is supposed to guarantee: no worker is lost or shared, no request is
forgotten, the count of workers is honest, shutting down leaves nothing behind, and a
caller can trust the failure it is told about.

Check everything with `dafny verify dfyconfig.toml`.

## How the model is built

* **The pool** (`PoolModel.dfy`) is a labelled transition system. One label is a stretch
  of code without an await of one asyncio task: requests, background grows, background
  releases, the sweep, `start()` and `stop()`. A spawn holds the condition's lock across
  its await; the sweep and `stop()` kill and un-count one worker at a time; a release
  kills before it takes the lock. Sending a kill's signal is not a step of its own: the
  step is the process being gone, and a process that has been signalled may be gone at any
  moment before it, as any process may. Any enabled step may come next, so every
  interleaving, every spawn result, every death of a process and every cancellation point
  is covered. (One thing is not: `stop()` while `start()` still holds the lock, which
  `run_daemon` never does.) Next to the pool's own fields the state has what they are meant
  to describe: the live processes, who has custody of each counted worker, who is parked,
  woken or leaving, and the log of spawn attempts.
* **The class** (`WorkerPool.dfy`) has the pool's fields, the condition's lock and queues,
  the scale-down task and `stop()`'s progress, and one method per critical section. Each is
  proved to be the transition of the same name by the writes it makes; only custody, the
  clock and the number of the next process are ghost.
* **The daemon** (`Daemon.dfy`) puts request handlers and background jobs on top: every
  acquire and release is driven by a call of `execute()`, and `run_daemon`'s finally block
  is in it step by step: removing the pid file, the web server's cleanup, `jobs.shutdown()`
  and `pool.stop()`, each raising or not, and with no step between two of them where the
  code does not await. `Runner.dfy`, `JobStore.dfy`, `WorkerProcess.dfy` and `RunDaemon.dfy`
  are the imperative forms of `execute`, of the job store, of a worker process and of
  `run_daemon`; `DaemonStore.dfy` and `DaemonTeardown.dfy` join the store and `run_daemon`
  to the runs of the daemon.
* **The two encodings of a failure** (`StreamParser.dfy`, `Errors.dfy`, `Transport.dfy`).

What a critical section decides is also said without the functions that compute it: by
`PoolLaws` on the settings, the fields and the processes, and likewise for jobs, outcomes,
replies and responses in their own modules.

Layers: `IdleQueue` and `Ownership` (lists and counting), `PoolInvariant` and `PoolSteps`
(what every step keeps), `PoolSafety`, `PoolLaws`, `Demand`, `Progress`, `Shutdown`, `WakeUps`, `Stranding`, `SpawnErrors`,
`PoolSettings`, `ReleaseLaw`, `SequentialTraffic`, `Scenarios` (what follows for runs),
`DaemonSafety`, `DaemonQueues`, `DaemonJobs`, `DaemonStore`, `DaemonShutdown`, `DaemonTeardown`,
`DaemonScenarios` (the composition).

## Where the code and its descriptions part

The model follows the code. Each of these is a lemma.

* README.md:240 and tests/test_pool.py:142-143 say that traffic after a drain climbs back
  to `min_workers`. Requests that come one at a time never bring back more than one worker
  (`SequentialTraffic.DrainedStaysSmall`).
* pool.py:100-101 says no waiter is left with nothing to wake it. Over whole runs without
  failed spawns, sweeps that kill, lost cancellations and `stop()` that holds exactly when
  `max_workers >= 1` (`PoolSettings.NoLostWakeUpIff`). In general four kinds of steps break
  it, and `Stranding.StrandsIff` says for every step of an open pool exactly when: a request
  that arrives or wakes finds the pool full of workers that nobody brings back, a woken
  request gives up on a failed spawn while others wait, the only wake-up is cancelled
  (until, where it is, it is passed on: `Stranding.ForsakesIff`), or the last grow finds no
  room. `Scenarios` has runs from start-up.
* pool.py:236-237 says a cancelled sweep cannot leave workers counted as gone but never
  killed. That is so, but the workers it had not reached are neither killed nor idle, and
  `stop()` never finds them (`Shutdown.StopMidSweepAbandons`).
* jobs.py:157 says that no worker outlives the daemon. That holds exactly when, as `stop()`
  begins, no sweep is mid-kill and neither a job nor a request holds a worker
  (`DaemonShutdown.NobodyOutlivesIff`; `DaemonShutdown.ShutdownLeaves` says what is left in
  every other case). A job holds one then only if it was submitted while `shutdown()` waited
  for an earlier job: it is not told to stop and keeps its worker
  (`DaemonShutdown.LateJobKeepsItsWorker`). The web server is taken down before that, so such
  a submit, and a request that still runs, also need `runner.cleanup()` to raise or to be cut
  short (`DaemonScenarios.LateSubmitOutlivesShutdown` is a run in which it raises).
* "worker spawn failed" can be a stale error where the condition passes a cancelled
  waiter's wake-up on (Python 3.13 and later) and `min_workers` exceeds `max_workers`,
  which nothing forbids (`PoolSettings.TruthfulIff`).
* A job whose asyncio task is cancelled before its first step stays RUNNING
  (`DaemonSafety.CancelBeforeFirstStep`); the daemon's `cancel()` repairs it when asked
  again.
* README.md:305 and README.md:567 say that a failure is classified by matching the words of
  the CLI's message. It is classified by five structured fields, and the words play no part
  (`StreamParser.WordingIsInert`).
* apidocs.py:32-33 says of `pool_unavailable` that the same request succeeds once a worker
  frees up. A request that the pool refuses because it is shutting down is told the same
  (`DaemonJobs.RefusedJob`).
* `classify` says it never raises. It does for an `api_error_status` that is an array or an
  object, since those cannot be hashed (`Errors.ClassifyMeans`).
* `run_daemon` stops the pool unless removing the pid file or shutting the jobs down raises
  (`RunDaemon.JobsThenPool`).

## Model

| member | source | states |
|---|---|---|
| `PoolSteps.StepKeepsInv` | src/claude_pool/pool.py:45-240 | Every step of every pool coroutine, from any state, keeps the whole invariant: the count equals the workers in custody, the deque and both kill lists are exactly the workers in their custody, whatever is about to be un-counted is dead, the bookkeeping counters are exact, the queue is ordered by age, the cap holds, and a closed pool is empty. |
| `PoolSafety.Conservation` | src/claude_pool/pool.py:88-95 | In every reachable state `_total` is idle + out + being released + on the sweep's list + on stop's list + abandoned by a cancellation, and the deque holds exactly the idle ones, each once. |
| `PoolSafety.DrainFindsNobodyOut` | src/claude_pool/pool.py:211-220 | When the drain condition holds, no request or job has a worker and none is on its way back. |
| `PoolSafety.NeverUnderCounted` | src/claude_pool/pool.py:195-197 | In every reachable state, after any cancellation, the live workers are counted ones and number at most `_total`. |
| `PoolSafety.CapacityBound` | src/claude_pool/pool.py:174-183 | `_total` never exceeds max(0, min_workers, max_workers), for any number of concurrent grows, releases and waiters and any settings. |
| `PoolSafety.BusyCountsTheRest` | src/claude_pool/pool.py:254-258 | The `busy` figure is the number of counted workers that are not idle, so it is never negative. |
| `PoolSafety.HandedOutIsSpent` | src/claude_pool/pool.py:142-145 | A request only gets a worker that is alive, was idle and is now its own. |
| `PoolSafety.NeverHandedOutTwice` | src/claude_pool/pool.py:142-145 | A worker that has once left the idle queue is never queued or handed out again, over any continuation of any run. |
| `PoolLaws.AcquireAnswers` | src/claude_pool/pool.py:136-172 | Which of the four answers a request gets, each if and only if a condition on the fields and the live processes holds. |
| `PoolLaws.AcquireTakesLongestIdle` | src/claude_pool/pool.py:142-152 | A request gets the longest idle of the live workers; exactly the dead ones before it are dropped and un-counted. |
| `PoolLaws.AcquireWaits` | src/claude_pool/pool.py:154-157 | A request that waits goes to the end of the line and schedules one grow of its own if the pool is below `max_workers`, however many are pending; none at the cap. |
| `PoolLaws.GrowSpawnsIff` | src/claude_pool/pool.py:174-183 | A grow spawns if and only if the pool is below its cap and open. |
| `PoolLaws.ReleaseReplenishesIff` | src/claude_pool/pool.py:195-204 | A release un-counts its worker, marks the time, and spawns if and only if the pool is open and short of `min_workers`, or below `max_workers` with somebody queued. |
| `PoolLaws.SpawnQueues` | src/claude_pool/pool.py:88-95 | A spawn queues one new live worker at the back, stamped with the time and counted, and clears the remembered error. |
| `PoolLaws.OnlyVictimsDie` | src/claude_pool/pool.py:190-240 | In every step exactly the worker that a release, the sweep or stop() kills, or that dies by itself, stops living, and only a spawn adds one. |
| `PoolLaws.WakesLongestParked` | src/claude_pool/pool.py:88-109 | A spawn, a failed spawn and a passed-on wake-up wake the longest parked request, stop() wakes all, and no other step wakes anybody. |
| `PoolLaws.WokenInOrder` | src/claude_pool/pool.py:157-161 | Over every run in which no parked request is cancelled, requests are woken in exactly the order in which they parked. |
| `PoolLaws.StopTakesAll` | src/claude_pool/pool.py:75-80 | stop() takes the queue over in its order and wakes everyone parked; with nobody idle it is over. |
| `PoolLaws.ListsAdvance` | src/claude_pool/pool.py:81-86 | Each decrement of the sweep and of stop() is for the worker just killed, and the list goes on with the next. |
| `PoolLaws.StartPreWarms` | src/claude_pool/pool.py:45-49 | start() is over if and only if `min_workers` workers are idle, and then the sweep has begun. |
| `PoolSafety.SweepTakesOldest` | src/claude_pool/pool.py:221-234 | From every reachable state the sweep removes a prefix of the queue, the oldest; draining empties it, otherwise only expired workers go, `min_workers` stay, and it stops only at the floor or when nobody left has expired. Which pools drain is said by the next two rows. |
| `PoolLaws.UnusedPoolDrains` | src/claude_pool/pool.py:209-234 | If the delay is positive and has passed since the last release, and every counted worker is idle, the sweep takes the whole queue, however small it is against `min_workers`. |
| `PoolLaws.UsedPoolShrinks` | src/claude_pool/pool.py:209-234 | If any of that fails, the sweep takes the longest idle workers, all expired, as many as it can while `min_workers` stay, and no others. |
| `PoolLaws.SweepTouchesOnlyIdle` | src/claude_pool/pool.py:209-235 | Choosing whom to kill changes nothing but the queue and the kill list; with nobody chosen the sweep sleeps again. |
| `PoolLaws.DrainsOnceUnused` | src/claude_pool/pool.py:211-220 | Over runs: after the last counted release, a sweep that finds everybody idle empties the queue once `idle_scale_to_zero_sec`, if positive, has passed since that release; until then `min_workers` of the queue, or all of it, stay. |
| `PoolLaws.NoDrainSoonAfterStart` | src/claude_pool/pool.py:36-40 | A pool never drains before the delay has passed since it was made, and the mark stays where it was until a release is counted. |
| `PoolLaws.SweptOnlyAfterTimeout` | src/claude_pool/pool.py:225-234 | Over runs: unless the pool is unused, no sweep takes a worker before `idle_timeout_sec` has passed since that worker was spawned. |
| `PoolLaws.SweepLivesUntilStop` | src/claude_pool/pool.py:45-64 | The scale-down task lives from the end of start() to the beginning of stop(), pass after pass. |
| `PoolSafety.NoDrainSoonAfterRelease` | src/claude_pool/pool.py:216-220 | After a counted release no run drains the pool until `idle_scale_to_zero_sec` has passed. |
| `PoolSafety.ClosedForGood` | src/claude_pool/pool.py:75-86 | After stop's critical section, in every later state: empty queue, nobody parked, no spawn, the count and the live set only shrink, and every arriving or woken request is refused. |
| `PoolSafety.CloseRefusesEveryone` | src/claude_pool/pool.py:75-80 | Everyone parked or woken when stop closes the pool keeps one wake-up coming until its turn; in every continuation nobody parks again and every turn taken is a refusal. |
| `Shutdown.StopLeaves` | src/claude_pool/pool.py:51-86 | Once stop() has run its course, the pool counts exactly what an interrupted sweep still had to kill, the workers that are out and those handed back too late for stop() to wait for; the latter two were out when it began, and whoever was out and not handed back still is. |
| `Shutdown.StopLeavesSweptAndOut` | src/claude_pool/pool.py:51-86 | If nobody is handed back meanwhile, that is exactly the sweep's victims and the workers that were out; the count ends at zero if and only if there were neither. |
| `Shutdown.StopLeavesOnlyTheInterruptedSweep` | src/claude_pool/pool.py:51-86 | The special case of stop() beginning with every worker handed back: exactly what an interrupted sweep still had to kill is left; zero if and only if no sweep was mid-kill. |
| `Shutdown.StopMidSweepAbandons` | src/claude_pool/pool.py:58-64 | Every worker that an interrupted sweep had not un-counted is counted for ever, and lives on unless it is dead already or dies without the pool (as one that was signalled will). |
| `Shutdown.AbandonedForever` | src/claude_pool/pool.py:81-86 | A worker whose killing was cancelled is counted in every later state and never killed by the pool. |
| `Shutdown.NobodyAbandonedWhileOpen` | src/claude_pool/pool.py:185-188 | Before stop() every counted worker is idle or has somebody that answers for it. |
| `Shutdown.BusyIsLeftAlone` | src/claude_pool/pool.py:51-56 | A worker that is out stays with its caller, counted, and alive unless it dies by itself, through everything stop() and the pool do, until it is released. |
| `WakeUps.NoLostWakeUp` | src/claude_pool/pool.py:154-161 | After any gentle run from start-up in which nobody is cancelled, with `max_workers >= 1`, every parked request has a grow pending, a woken companion, or a worker out or coming back. |
| `WakeUps.NoLostWakeUpWithRelays` | src/claude_pool/pool.py:126-161 | The same with acquire timeouts and cancellations anywhere, where a cancelled wait passes its wake-up on (Python 3.13 and later), counting requests that are just leaving. |
| `Demand.ParkedLeaveNoRoom` | src/claude_pool/pool.py:136-204 | After every gentle run, for all settings: each parked request has a spawn under way (or somebody leaving who passes a wake-up on), or the workers not idle, the spawns under way and the requests still to look make up `max_workers`. |
| `Demand.ParkedMeansFull` | src/claude_pool/pool.py:154-157 | So with nothing under way a request is parked only if `max_workers` workers are not idle. |
| `Progress.NeverStuck` | src/claude_pool/pool.py:45-240 | No deadlock: in every reachable state with anything under way, some task of the pool or a queued request can take its next step without anything from outside. |
| `Progress.RunsEnd` | src/claude_pool/pool.py:45-240 | No livelock: as long as spawns succeed and nothing comes from outside, no run is longer than a bound computed from the state it begins in. |
| `Progress.ComesToRest` | src/claude_pool/pool.py:45-240 | From every reachable state such a run leads to a state with nothing under way. |
| `Progress.RestMeansServedOrFull` | src/claude_pool/pool.py:136-204 | When a gentle run has left the pool at rest, a request is parked only if at least `max_workers` workers are out with callers. |
| `Stranding.StrandsIff` | src/claude_pool/pool.py:136-204 | For every step of an open pool: it leaves parked requests with nothing to wake them if and only if the guard of that step holds; no kind of step has a guard but arriving, resuming, a cancelled wake-up and a grow. |
| `Stranding.ForgottenOnlyByGuard` | src/claude_pool/pool.py:97-109 | In any run of an open pool, whoever ends up forgotten was so by a step taken under its guard. |
| `Stranding.ForsakesIff` | src/claude_pool/pool.py:126-204 | The same as `StrandsIff` where cancelled wake-ups are passed on: a step forsakes the parked requests if and only if its guard holds, nobody is leaving, and it is not a cancellation. |
| `Stranding.ForsakenOnlyByGuard` | src/claude_pool/pool.py:97-109 | In any such run of an open pool whoever ends up forsaken was so by such a step. |
| `PoolSettings.NoLostWakeUpIff` | src/claude_pool/pool.py:97-109 | Over all gentle runs, with cancellations passed on or with none, nobody is ever forgotten if and only if `max_workers >= 1`. |
| `Stranding.StrandedForGood` | src/claude_pool/pool.py:136-172 | A stranded request stays parked through everything the pool itself still does. |
| `Stranding.FailedSpawnStrandsIff` | src/claude_pool/pool.py:105-108 | When a spawn fails while requests are parked, the one it wakes leaves somebody stranded exactly when nobody else is woken, no grow is queued, no worker is out or coming back, and either others are parked or the pool is full of dead and taken workers. |
| `Stranding.ArrivalStrandsIff` | src/claude_pool/pool.py:136-161 | A request is stranded on arrival exactly when nobody idle is alive, the workers that are not idle fill the pool, none of them is coming back, no grow is pending and nobody is woken. |
| `Scenarios.FailedReplenishStrands` | src/claude_pool/pool.py:199-204 | A run from start-up: a failed replenish tells one of two waiters, the other waits on an empty pool with room. |
| `Scenarios.SweptUnderRequestStrands` | src/claude_pool/pool.py:235-240 | A run from start-up: a request parks behind a sweep of a full pool and is never woken. |
| `Scenarios.SweptBeforeResumeStrands` | src/claude_pool/pool.py:209-240 | A run from start-up without failures: the sweep drains the worker spawned for a request before the woken request looks, which parks again on a full pool. |
| `Scenarios.StopMidSweepLeavesWorker` | src/claude_pool/pool.py:58-64 | A run from start-up: stop() interrupts a sweep of two workers while it waits for the first; the second, never reached, is alive and counted when stop() returns. |
| `SpawnErrors.SpawnFailureIsTruthful` | src/claude_pool/pool.py:163-172 | Where cancelled wake-ups are not passed on: a request told of a spawn failure had an attempt fail while it was parked, sees the error of the latest attempt, and no grow is in flight. |
| `SpawnErrors.SpawnFailureIsTruthfulWithRelays` | src/claude_pool/pool.py:163-172 | The same where they are passed on, before stop(), when `min_workers <= max_workers`. |
| `PoolSettings.TruthfulIff` | src/claude_pool/pool.py:163-172 | Over all runs before stop() the reported spawn failure is true if and only if `min_workers <= max_workers` or nothing is pre-warmed. |
| `ReleaseLaw.ReleaseLaw` | src/claude_pool/pool.py:190-204 | With nobody waiting and no spawn failing, any interleaving of k releases takes `_total` from t to max(min(t, min_workers), t-k). |
| `ReleaseLaw.OneRelease` | src/claude_pool/pool.py:190-204 | One release keeps the count below `min_workers`, lowers it by one above, never raises it. |
| `SequentialTraffic.SequentialTrafficStaysWithin` | src/claude_pool/pool.py:136-204 | Requests that come one at a time, through deaths, failures, cancellations and sweeps, never take the pool above the n idle workers it had (n >= 1). |
| `SequentialTraffic.DrainedStaysSmall` | src/claude_pool/pool.py:199-204 | A drained pool under sequential traffic holds at most one worker in every later state. |
| `SequentialTraffic.NoExcessInSequence` | src/claude_pool/pool.py:221-234 | From at most `min_workers` idle workers, sequential traffic never gives the sweep an excess worker to kill. |
| `ReleaseLaw.ServedInSequence` | src/claude_pool/pool.py:136-204 | Sequential requests are all served, and the count they leave is known exactly. |
| `ReleaseLaw.DrainedPoolRegainsOne` | tests/test_pool.py:132-144 | After a drain they bring back exactly min(min_workers, 1) workers. |
| `ReleaseLaw.WarmPoolStaysWarm` | tests/test_pool.py:170-175 | From a warm pool they keep exactly `min_workers` idle. |
| `IdleQueue.SweepTakesPrefix` | src/claude_pool/pool.py:225-234 | On any queue ordered by age the greedy pass cuts off a prefix, keeps the order, and stops only for want of allowance or of candidates. |
| `WorkerPoolClass.SweepPass` | src/claude_pool/pool.py:225-234 | The loop computes the kill list and the survivors that `SweepTakesPrefix` is about. |
| `WorkerPoolClass.WorkerPool.constructor` | src/claude_pool/pool.py:19-43 | A new pool is the initial state and valid. |
| `WorkerPoolClass.WorkerPool.Notify` | src/claude_pool/pool.py:95 | Moves the longest-parked waiter, if any, to the woken ones. |
| `WorkerPoolClass.WorkerPool.NotifyAll` | src/claude_pool/pool.py:80 | Moves all of them, in order. |
| `WorkerPoolClass.WorkerPool.PreWarm` | src/claude_pool/pool.py:45-49 | start()'s spawn, then its next or its end, is the transition `StartSpawned` and keeps the pool valid. |
| `WorkerPoolClass.WorkerPool.SpawnLands` | src/claude_pool/pool.py:88-95 | A spawn that lands is `SpawnSucceeds`: queued at the back, counted, error forgotten, one waiter woken. |
| `WorkerPoolClass.WorkerPool.SpawnRaises` | src/claude_pool/pool.py:103-109 | A spawn that raises is `SpawnFails`: error kept, one waiter woken. |
| `WorkerPoolClass.WorkerPool.BeginGrow` | src/claude_pool/pool.py:174-183 | A grow with the lock is `GrowBegins`: it spawns exactly below the cap and before stop. |
| `WorkerPoolClass.WorkerPool.DropDeadOnes` | src/claude_pool/pool.py:142-152 | The inner loop drops exactly the dead workers at the front, one by one, and un-counts them. |
| `WorkerPoolClass.WorkerPool.TakeOrPark` | src/claude_pool/pool.py:138-159 | One turn of the outer loop of `_acquire` gives the answer and the state of the function `LoopTop`. |
| `WorkerPoolClass.WorkerPool.Enter` | src/claude_pool/pool.py:136-161 | A request entering acquire is `AcquireEnter`, answer included. |
| `WorkerPoolClass.WorkerPool.Resume` | src/claude_pool/pool.py:159-172 | A woken request is `AcquireResume`, answer included. |
| `WorkerPoolClass.WorkerPool.CountReleased` | src/claude_pool/pool.py:196-204 | release's critical section is `ReleaseCounts`; it goes on to spawn exactly when the transition says so. |
| `WorkerPoolClass.WorkerPool.SweepOnce` | src/claude_pool/pool.py:209-234 | The sweep's critical section is `SweepSelects`, with exactly that kill list. |
| `WorkerPoolClass.WorkerPool.CountSwept` | src/claude_pool/pool.py:239-240 | The sweep's decrement is `SweepCounts`. |
| `WorkerPoolClass.WorkerPool.BeginToStop` | src/claude_pool/pool.py:57-64 | The start of stop(), with the scale-down task cancelled, is `StopBegins`. |
| `WorkerPoolClass.WorkerPool.CloseQueue` | src/claude_pool/pool.py:75-80 | stop's critical section, taking the queue over and waking every waiter, is `StopCloses`. |
| `WorkerPoolClass.WorkerPool.CountDoomed` | src/claude_pool/pool.py:85-86 | stop's decrement is `StopCounts`. |
| `WorkerPoolClass.WorkerPool.Health` | src/claude_pool/pool.py:251-262 | `idle_alive` is the number of idle workers that live, wherever they are in the queue; `healthy` is true exactly when every one does; vacuously for an empty pool. |
| `Runner.Execute` | src/claude_pool/runner.py:37-71 | Whatever acquire, the run and the shielded wait do, an acquired worker is handed back exactly once and nothing else is; a result is returned only after the release; a cancellation always surfaces; /health shows exactly the last outcome noted, which a returned one always is. |
| `Runner.OutcomeMeans` | src/claude_pool/runner.py:49-71 | Ending by ending: message, kind, status and retryable flag of a timeout and of a run without a result line; a reply's own text and duration, a success if and only if it is not an error; and an exception exactly for a cancelled or raising run or an unhashable status. |
| `Runner.RefusedMeans` | src/claude_pool/runner.py:42-47 | A request without a worker is told the pool's reason, as `pool_unavailable`, 503, worth retrying. |
| `DaemonSafety.NextKeepsInv` | src/claude_pool/runner.py:37-71 | Every event of the composed daemon keeps: a worker is out with a caller exactly when that caller runs it, the release history is exact, jobs and their coroutines match. |
| `DaemonSafety.ExactlyOneReleasePerWorker` | src/claude_pool/runner.py:59-63 | In every run of the daemon each worker acquire returned is either run by exactly one caller and not released, or released exactly once; no other worker is ever released. |
| `DaemonSafety.CancelIsAFact` | src/claude_pool/jobs.py:141-154 | Once a job's coroutine is gone no worker is out for it and the job is finished, unless it was cancelled before its first step. |
| `DaemonSafety.CancelBeforeFirstStep` | src/claude_pool/jobs.py:105-110 | Cancelling before the first step leaves the job RUNNING with nothing to finish it; a second cancel finishes it. |
| `DaemonSafety.LeftRunningOnlyByCancelFresh` | src/claude_pool/jobs.py:105-110 | Over whole runs: a job that is running without an asyncio task had that task cancelled before its first step. |
| `DaemonSafety.LeftRunningStays` | src/claude_pool/jobs.py:164-183 | Such a job stays RUNNING in the store, never reaped, until it is cancelled again. |
| `DaemonJobs.SettledJob` | src/claude_pool/jobs.py:105-132 | The record of a job whose run is over: cancelled if and only if the run or the wait for the release was, succeeded if and only if the worker answered without an error and then with that text, failed with the right kind otherwise; no other job or task changes. |
| `DaemonJobs.RefusedJob` | src/claude_pool/jobs.py:105-132 | A job that the pool refuses has failed with the pool's reason and is worth retrying. |
| `DaemonJobs.DesertingJob` | src/claude_pool/jobs.py:105-132 | A job that leaves the queue is cancelled if it was told to stop; otherwise it has failed for want of a worker. |
| `DaemonQueues.EveryTaskHasItsTicket` | src/claude_pool/pool.py:157-161 | In every run each coroutine waiting in acquire has exactly one place in the condition's queues, and every place belongs to one. |
| `DaemonQueues.EveryTicketHasItsTask` | src/claude_pool/pool.py:157-161 | A wake-up never goes to a request that is gone: whenever the pool lets a woken or interrupted request go on, that request is there to do it. |
| `DaemonShutdown.Projects` | src/claude_pool/daemon.py:26-51 | Every run of the daemon is a run of its pool, so all that holds of pool runs holds of the daemon. |
| `DaemonShutdown.ShutdownWaitsForItsSnapshot` | src/claude_pool/jobs.py:156-162 | Whatever happens while jobs.shutdown() waits, when it returns every job it told to stop has ended; job tasks that are left were submitted after it began, and without a submit, or with nobody to wait for, there are none. |
| `DaemonShutdown.ToldJobsAreOver` | src/claude_pool/jobs.py:156-162 | No worker is out for any of those jobs, and each is finished unless it had not taken its first step. |
| `DaemonTeardown.TearsDownLikeRunDaemon` | src/claude_pool/daemon.py:40-51 | In every run of the daemon, what it has begun of the finally block is a prefix of what run_daemon's control flow begins when the same effects raise, all of it at the end; and the pool is stopped exactly in the runs that begin `pool.stop()`. |
| `DaemonTeardown.CompletesTheTrace` | src/claude_pool/daemon.py:26-51 | So a run that has ended completes run_daemon's whole trace, for every start-up that leads to that finally block. |
| `DaemonShutdown.ShutdownLeaves` | src/claude_pool/daemon.py:47-51 | From any state in which jobs.shutdown() begins, through pool.stop(), whatever is submitted and whoever still runs: what is counted at the end is exactly the victims of a sweep that was mid-kill, the workers still held, and those handed back too late. |
| `DaemonShutdown.NobodyOutlivesIff` | src/claude_pool/jobs.py:156-162 | If no run ends while stop() is under way: nobody is left if and only if, when it began, no sweep was mid-kill and no job or request held a worker; otherwise exactly those are left. |
| `DaemonShutdown.OrderlyShutdown` | src/claude_pool/daemon.py:47-51 | The case of no submit while jobs.shutdown() waits and no request holding a worker: the daemon ends with no worker alive and none counted if and only if no sweep was mid-kill. |
| `DaemonShutdown.LateJobKeepsItsWorker` | src/claude_pool/jobs.py:156-162 | A job that holds a worker when stop() begins was submitted while shutdown() waited for others; until its run ends it keeps the worker, counted and alive, through the whole shutdown. |
| `DaemonScenarios.LateSubmitOutlivesShutdown` | src/claude_pool/daemon.py:40-51 | A run from start-up in which that happens: the web server's cleanup raises, a second job is submitted and takes a worker while shutdown() waits for the first, and stop() ends with that worker alive. |
| `DaemonShutdown.TerminalOnce` | src/claude_pool/jobs.py:127-132 | Over every run a finished job never changes in any field; it can only be dropped. |
| `DaemonShutdown.StoreStaysBounded` | src/claude_pool/jobs.py:89-103 | Over every run, right after a submit the store holds at most max(max_jobs, running before) + 1 jobs. |
| `RunDaemon.Daemon.Serve` | src/claude_pool/daemon.py:31-39 | Start-up begins its effects in order, up to and including the first that raises. |
| `RunDaemon.Daemon.TearDown` | src/claude_pool/daemon.py:40-51 | The nested finally blocks begin what `Ended` lists, and raise exactly when one of those does or something was already on its way out. |
| `RunDaemon.Daemon.Run` | src/claude_pool/daemon.py:26-51 | run_daemon begins exactly the trace, and raises exactly when something in it does. |
| `RunDaemon.JobsThenPool` | src/claude_pool/daemon.py:40-51 | The pool is stopped if and only if mkdir, removing the pid file and shutting the jobs down do not raise, and then last, right after the jobs, with the web server taken down right before them if it was created. |
| `RunDaemon.ServesInOrder` | src/claude_pool/daemon.py:26-39 | Each effect of start-up begins if and only if none of those before it raised: pool, app, server set-up, site, pid file, and only then the wait for a signal. |
| `Jobs.ReapMeans` | src/claude_pool/jobs.py:164-183 | For any store and any limit: running jobs survive; no finished job stays longer than the retention time after it finished; any other job goes only if more than the limit are left; the size is exactly max(running, min(kept, max_jobs)); the survivors keep their order. |
| `Jobs.ReapEvictsOldest` | src/claude_pool/jobs.py:174-183 | Whoever is evicted for space finished before every finished survivor, or at the same time and was submitted earlier. |
| `Jobs.SubmitBound` | src/claude_pool/jobs.py:89-103 | After a submit: ids unique, the new job last, the bound, no running job lost, nobody past retention. |
| `Jobs.NewJobMeans` | src/claude_pool/jobs.py:36-46 | A new job is running, created now, unfinished, and shows the first 80 characters of its prompt, or all of it. |
| `Jobs.ListMeans` | src/claude_pool/jobs.py:137-139 | list() is a permutation of the reaped store, newest first, equal ones in the order of submission. |
| `Jobs.PutInPlace` | src/claude_pool/jobs.py:127-132 | Finishing a job leaves its place in the order and every other job as they are. |
| `JobStoreClass.JobStore.DropExpired` | src/claude_pool/jobs.py:165-172 | The deletion loop leaves exactly the unexpired jobs, in order. |
| `JobStoreClass.JobStore.DropOverflow` | src/claude_pool/jobs.py:177-183 | The second loop deletes exactly the evicted jobs. |
| `JobStoreClass.JobStore.Reap` | src/claude_pool/jobs.py:164-183 | In place, `_reap` is the function that `ReapMeans` is about. |
| `JobStoreClass.JobStore.Submit` | src/claude_pool/jobs.py:89-103 | Reaps, then adds the new job and its asyncio task. |
| `JobStoreClass.JobStore.List` | src/claude_pool/jobs.py:137-139 | Reaps, then returns the sorted store that `ListMeans` is about. |
| `JobStoreClass.JobStore.Cancel` | src/claude_pool/jobs.py:141-154 | Tells a live asyncio task to stop; a running job that has none ends as a cancelled one, now; everything else stays. |
| `JobStoreClass.JobStore.TaskEnds` | src/claude_pool/jobs.py:105-132 | When a job's execute() ends, the job is terminal as of now, keeps its identity, and its status, text, error and failure are those of the way it ended; no other job changes, and exactly its task is done. |
| `JobStoreClass.JobStore.Forget` | src/claude_pool/jobs.py:102 | The done-callback drops the entry of a task that is done; the tasks that are not done stay. |
| `JobStoreClass.JobStore.TellAll` | src/claude_pool/jobs.py:156-162 | The pass over the tasks collects exactly those that are not done, also when finished ones are still in the dictionary. |
| `DaemonStore.NewStore` | src/claude_pool/jobs.py:83-87 | A new store stands for the daemon's initial state: same jobs, same settings, and the same tasks that are not done. |
| `DaemonStore.SubmitSimulates` | src/claude_pool/jobs.py:89-103 | The submit method of a store that stands for a reachable state of the daemon makes it stand for the state after the daemon's submit. |
| `DaemonStore.ListSimulates` | src/claude_pool/jobs.py:137-139 | Likewise the list method, which reaps. |
| `DaemonStore.EndSimulates` | src/claude_pool/jobs.py:105-132 | Likewise the end of a job's task, however it ends. |
| `DaemonStore.CancelSimulates` | src/claude_pool/jobs.py:141-154 | Likewise cancel(): it tells the task exactly if the daemon still has one, and finishes the job exactly where the daemon's second cancel does. |
| `DaemonStore.ForgetSimulates` | src/claude_pool/jobs.py:102 | The done-callback, whenever it comes, is nothing to the daemon. |
| `DaemonStore.TellAllSimulates` | src/claude_pool/jobs.py:156-162 | What the shutdown method collects is what the daemon waits for; if it collects nothing the daemon stops the pool without waiting. |
| `JobStoreClass.JobStore.Stats` | src/claude_pool/jobs.py:185-187 | Counts the jobs and the running ones. |
| `Errors.ClassifyMeans` | src/claude_pool/errors.py:65-88 | The four verdicts, each with kind, status, flag and hint, for exactly the listed statuses (integers or floats) and code, a rate limit first; and an exception exactly for an unhashable status. |
| `Errors.ClassifiedIsPublished` | src/claude_pool/apidocs.py:32-51 | Every classified failure is a row of the published table of failure kinds, with a Retry-After of 60 exactly for the rate limit. |
| `StreamParser.ParseStream` | src/claude_pool/worker.py:118-144 | The scan yields the first result line and the last API error code up to it. |
| `StreamParser.ReplyMeans` | src/claude_pool/worker.py:105-116 | The reply's text, duration, error flag and status are those of the first result line, with the defaults for what it lacks. |
| `StreamParser.ReplyCodeMeans` | src/claude_pool/worker.py:136-143 | Its code is the error of the last line so marked, up to the first result line, or empty. |
| `StreamParser.VerdictFromShapes` | src/claude_pool/worker.py:99-116 | The verdict is a function of the five structured fields, line by line. |
| `StreamParser.WordingIsInert` | src/claude_pool/worker.py:92-116 | Two outputs that agree on those fields get the same verdict, whatever else they say, whatever is skipped, whatever the exit codes. |
| `WorkerProcess.OutcomeIgnoresWordingAndExit` | src/claude_pool/runner.py:49-71 | So the caller gets the same success flag and failure from them. |
| `WorkerProcess.CallerGetsTheResult` | src/claude_pool/runner.py:49-71 | From output to outcome: the caller gets the "result" of the first result line, as the answer or as the failure's message, with its duration. |
| `WorkerProcess.CallerGetsTheExitCode` | src/claude_pool/worker.py:99-103 | Without a result line it gets a failure that names the exit code and quotes the error stream. |
| `WorkerProcess.Worker.Start` | src/claude_pool/worker.py:48-62 | A started worker is alive and stamped; a failed exec changes nothing. |
| `WorkerProcess.Worker.Kill` | src/claude_pool/worker.py:146-149 | Idempotent, and afterwards the process is gone. |
| `WorkerProcess.Worker.Run` | src/claude_pool/worker.py:76-116 | The output decides before the exit code; a worker that is still alive after run() was cancelled. |
| `Transport.FailureResponse` | src/claude_pool/server.py:100-112 | The response built field by field is the encoding that the client lemmas are about; a hint too long for str() raises. |
| `Transport.ResponseMeans` | src/claude_pool/server.py:100-112 | The response has the failure's status, the message, kind and flag, a duration if and only if it is not zero, and a header if and only if there is a hint, which reads back as that number. |
| `Transport.JobBodyMeans` | src/claude_pool/jobs.py:52-62 | What every job's body has, with its values, and what a succeeded one adds. |
| `Transport.FailedBodyMeans` | src/claude_pool/jobs.py:63-71 | Exactly what a failed job's body adds. |
| `Transport.NumeralRoundTrip` | src/claude_pool/server.py:111 | Writing a non-negative integer in decimal and reading it back gives the integer. |
| `Transport.ResponseDecodes` | src/claude_pool/client.py:177-193 | The client reads a failure response as message, kind, flag and hint of the outcome. |
| `Transport.JobDecodes` | src/claude_pool/client.py:161-167 | And a failed job's body likewise. |
| `Transport.TwoTransportsOneError` | src/claude_pool/client.py:161-193 | For every failed outcome both ways give the same error, if and only if the hint is absent, or not negative and of at most 4300 digits. |
| `Transport.ClassifiedFailuresAgree` | src/claude_pool/jobs.py:63-71 | So they always agree for failures that classify makes. |
| `Transport.PollFollowsStatus` | src/claude_pool/client.py:156-174 | What a waiting client sees corresponds one-to-one to the job's status. |
| `Transport.ErrorFromMeans` | src/claude_pool/client.py:177-193 | What the client raises for any error response it can read: the body's values, or the status code as the message, an unknown kind, not retryable, and the header's number. |
| `Transport.ErrorFromRaisesIff` | src/claude_pool/client.py:184-187 | Reading an error response raises something else exactly when the body has no hint and the header is all digits, with a superscript among them or more of them than int() converts. |
| `Transport.LongHeaderRaises` | src/claude_pool/client.py:186-187 | For example for 4301 ones. |

## Left out

- Real subprocesses, pipes, Windows job objects and process creation flags; a process is unstarted, up or exited, and may die at any time. A process that a failed or cancelled spawn leaves behind is not modelled.
- asyncio internals: the order in which the lock is granted, event-loop teardown, `wait_for` racing with its own timeout. Timeouts are cancellations that may come at any await. Whether a condition passes a cancelled waiter's wake-up on is a parameter of the step.
- The five seconds that stop() waits before it cancels background spawns and releases appear as a hypothesis (`Undisturbed`) of the shutdown lemmas.
- What the web server's cleanup does to request handlers is not modelled: it may end, raise or be cut short at any time, and requests and submits may come after it as before it.
- DaemonShutdown.ShutdownWaitsForItsSnapshot: a job told to stop may end in any way, also as if it had not noticed, and that it ends soon is not modelled.
- ReleaseLaw.ServedInSequence: shows a run that serves the requests; that the event loop takes it is not modelled. `Progress` bounds every run, whichever step comes next, and so does not need fairness, but only where spawns succeed.
- SequentialTraffic.SequentialTrafficStaysWithin: does not count workers on a sweep's kill list, which `_total` still includes until they are dead.
- PoolSettings.NoLostWakeUpIff: is about runs in which spawns succeed, cancelled wake-ups are passed on and the sweep kills nobody; for all other runs of an open pool `Stranding.StrandsIff` and `Stranding.ForsakesIff` have the exact steps.
- JobStoreClass.JobStore.Cancel: covers cancel() up to its await; what the awaited coroutine does is in `DaemonSafety.dfy`.
- The daemon's events know a finished asyncio task only as gone; that its entry may stay in the dictionary until the done-callback is in the class `JobStore` alone.
- Exceptions out of a release's kill, and `note_failure` from anywhere but the runner.
- Serialising to JSON (where an integer of more than 4300 digits raises as well), JSON and UTF-8 decoding, and JSON lines or error bodies that are not objects; text of exceptions in messages ("unexpected error", the acquire timeout) is abbreviated.
- Header name case, the body validation and Host check of the server, `apidocs`, `PoolConfig.from_env`, scripts, the contents of pid files, signal handling.
- The success response of a blocking call, the client's auto-start, polling sleep and deadline. Job ids are fresh by assumption.

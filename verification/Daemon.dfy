/** The daemon as a whole: request handlers and background jobs, each running
    execute(), on top of the pool. Every acquire and every release of a pool step is
    driven by the caller that makes it, and stop() by run_daemon, after the jobs. */
module Daemon {
  import opened Wrappers
  import opened Runner
  import Jobs
  import opened PoolModel

  type Job = Jobs.Job

  /** Where a task is in execute(). */
  datatype Phase =
    | Fresh                              // created, its first step not yet taken
    | Entering                           // in acquire(), waiting for the lock
    | Queued                             // parked on, or woken from, the condition
    | Leaving(cancelled: bool)           // cancelled or timed out there, waiting for the lock
    | Holding(worker: nat)               // in worker.run()
    | Retiring(worker: nat, run: RunEnd) // waiting for the shielded release

  datatype Task = Task(isJob: bool, phase: Phase)

  /** Where run_daemon is in its finally block: waiting for the web server's cleanup,
      waiting for the job tasks that jobs.shutdown() has told to stop, in pool.stop(), or
      out of it by an exception before it got there. */
  datatype Closing = Up | Cleaning | Telling(told: set<nat>) | StoppingPool | BrokenOff

  /** `handed` and `released` are histories: the workers acquire() returned, and those
      given to release_in_background. `unborn` are the jobs whose task was cancelled
      before its first step. */
  datatype System = System(
    pool: State, jobs: seq<Job>, tasks: map<nat, Task>, nextId: nat,
    handed: set<nat>, released: multiset<nat>, unborn: set<nat>, closing: Closing)

  datatype Settings = Settings(pool: Config, retention: real, maxJobs: int)

  datatype Event =
    | Background(step: Label)                       // a step of the pool's own tasks
    | Submit(prompt: string, timeoutSec: real, now: real)
    | Arrive                                         // a request handler starts
    | FirstStep(id: nat)
    | Ask(id: nat, now: real)                        // acquire() gets the lock
    | Look(index: nat, now: real)                    // a woken acquire() gets the lock
    | GiveUp(index: nat, parked: bool, cancelled: bool)
    | Leave(index: nat, relays: bool, now: real)
    | GiveUpEntering(id: nat, cancelled: bool, now: real)
    | CancelFresh(id: nat)
    | RunEnds(id: nat, run: RunEnd)
    | Settles(id: nat, release: ReleaseEnd, now: real)
    | CancelDead(id: nat, now: real)                 // cancel() on a job without a live task
    | List(now: real)
    | TearDown(unlinkRaises: bool, hasRunner: bool)  // run_daemon enters its finally block
    | CleanupEnds(raises: bool)                      // runner.cleanup() is over
    | ShutdownEnds(raises: bool)                     // jobs.shutdown() returns, or is cut short

  function Initially(conf: Settings, now: real): System {
    System(Initial(conf.pool, now), [], map[], 0, {}, multiset{}, {}, Up)
  }

  /** The job tasks that are not done. */
  function JobTasks(tasks: map<nat, Task>): set<nat> {
    set id | id in tasks && tasks[id].isJob
  }

  /** The event goes straight on into jobs.shutdown(), which takes its snapshot. */
  predicate BeginsJobs(e: Event) {
    e.CleanupEnds? || (e.TearDown? && !e.unlinkRaises && !e.hasRunner)
  }

  /** The event goes straight on into pool.stop(): jobs.shutdown() has returned, or it had
      nobody to wait for. */
  predicate StopsPool(s: System, e: Event) {
    (BeginsJobs(e) && JobTasks(s.tasks) == {}) || (e.ShutdownEnds? && !e.raises)
  }

  predicate Closes(e: Event) {
    e.TearDown? || e.CleanupEnds? || e.ShutdownEnds?
  }

  function ClosingAfter(s: System, e: Event): Closing {
    if StopsPool(s, e) then StoppingPool
    else if BeginsJobs(e) then Telling(JobTasks(s.tasks))
    else match e
      case TearDown(unlinkRaises, _) => if unlinkRaises then BrokenOff else Cleaning
      case ShutdownEnds(_) => BrokenOff
      case _ => s.closing
  }

  /** Steps of the pool that belong to its own tasks, not to a caller. */
  predicate Own(l: Label) {
    && !Asks(l) && !l.CancelParked? && !l.CancelNotified? && !l.CancelledLeaves? && !l.ReleaseScheduled?
    && !l.StopBegins?
  }

  predicate InPhase(s: System, id: nat, p: Phase) {
    id in s.tasks && s.tasks[id].phase == p
  }

  predicate Holds(s: System, id: nat) {
    id in s.tasks && s.tasks[id].phase.Holding?
  }

  /** The task is over; if it was a job's, the job is finished. */
  function EndTask(s: System, id: nat, e: Ending, now: real): System
    requires id in s.tasks
  {
    var found := Jobs.Find(s.jobs, id);
    s.(tasks := s.tasks - {id},
       jobs := if s.tasks[id].isJob && found.Some?
               then Jobs.Put(s.jobs, Jobs.Finished(found.value, e, now))
               else s.jobs)
  }

  /** The task gets the answer of one turn of the acquire loop. */
  function Answered(s: System, id: nat, answer: Answer, now: real): System
    requires id in s.tasks
  {
    match answer
    case Got(w) => s.(tasks := s.tasks[id := s.tasks[id].(phase := Holding(w.id))], handed := s.handed + {w.id})
    case Waits => s.(tasks := s.tasks[id := s.tasks[id].(phase := Queued)])
    case ShuttingDown => EndTask(s, id, Refused("pool is shutting down"), now)
    case SpawnError(error) => EndTask(s, id, Refused("worker spawn failed: " + error), now)
  }

  function Deserted(cancelled: bool): Ending {
    if cancelled then Cancelled else Refused("no worker available in time")
  }

  /** The pool step that an event takes, if any. */
  function PoolLabel(e: Event, s: System): Option<Label> {
    match e
    case Background(l) => Some(l)
    case Ask(id, _) => Some(AcquireEnter(id))
    case Look(i, _) => Some(AcquireResume(i))
    case GiveUp(i, parked, _) => Some(if parked then CancelParked(i) else CancelNotified(i))
    case Leave(i, relays, _) => Some(CancelledLeaves(i, relays))
    case RunEnds(id, _) => if Holds(s, id) then Some(ReleaseScheduled(s.tasks[id].phase.worker)) else None
    case TearDown(_, _) => if StopsPool(s, e) then Some(StopBegins) else None
    case CleanupEnds(_) => if StopsPool(s, e) then Some(StopBegins) else None
    case ShutdownEnds(_) => if StopsPool(s, e) then Some(StopBegins) else None
    case _ => None
  }

  predicate May(conf: Settings, s: System, e: Event) {
    && (PoolLabel(e, s).Some? ==> Enabled(conf.pool, s.pool, PoolLabel(e, s).value))
    && match e
       case Background(l) => Own(l)
       case Submit(_, _, _) => true
       case Arrive => true
       case FirstStep(id) => InPhase(s, id, Fresh)
       case Ask(id, _) => InPhase(s, id, Entering)
       case Look(i, _) => InPhase(s, s.pool.notified[i].call, Queued)
       case GiveUp(i, parked, _) =>
         InPhase(s, if parked then s.pool.parked[i].call else s.pool.notified[i].call, Queued)
       case Leave(i, _, _) => s.pool.leaving[i] in s.tasks && s.tasks[s.pool.leaving[i]].phase.Leaving?
       case GiveUpEntering(id, _, _) => InPhase(s, id, Entering)
       case CancelFresh(id) => InPhase(s, id, Fresh)
       case RunEnds(id, _) => Holds(s, id)
       case Settles(id, release, _) =>
         && id in s.tasks && s.tasks[id].phase.Retiring?
         && (release.ReleaseDone? ==> s.tasks[id].phase.worker !in s.pool.at)
       case CancelDead(id, _) =>
         id !in s.tasks && Jobs.Find(s.jobs, id).Some? && !Jobs.Find(s.jobs, id).value.Terminal()
       case List(_) => true
       case TearDown(_, _) => s.closing.Up? && !s.pool.lock.Starting?
       case CleanupEnds(_) => s.closing.Cleaning?
       case ShutdownEnds(raises) =>
         s.closing.Telling? && (!raises ==> forall id :: id in s.closing.told ==> id !in s.tasks)
  }

  /** The pool after the event. */
  function PoolAfter(conf: Settings, s: System, e: Event): State
    requires May(conf, s, e)
  {
    if PoolLabel(e, s).Some? then Step(conf.pool, s.pool, PoolLabel(e, s).value) else s.pool
  }

  function Next(conf: Settings, s: System, e: Event): System
    requires May(conf, s, e)
  {
    var t := s.(pool := PoolAfter(conf, s, e));
    match e
    case Background(_) => t
    case Submit(prompt, timeoutSec, now) =>
      var job := Jobs.NewJob(s.nextId, prompt, timeoutSec, now);
      t.(jobs := Jobs.Submit(s.jobs, job, now, conf.retention, conf.maxJobs),
         tasks := s.tasks[s.nextId := Task(true, Fresh)], nextId := s.nextId + 1)
    case Arrive => t.(tasks := s.tasks[s.nextId := Task(false, Fresh)], nextId := s.nextId + 1)
    case FirstStep(id) => t.(tasks := s.tasks[id := s.tasks[id].(phase := Entering)])
    case Ask(id, now) => Answered(t, id, LoopTop(conf.pool, s.pool, id).answer, now)
    case Look(i, now) => Answered(t, s.pool.notified[i].call, Wake(conf.pool, s.pool, i).answer, now)
    case GiveUp(i, parked, cancelled) =>
      var id := if parked then s.pool.parked[i].call else s.pool.notified[i].call;
      t.(tasks := s.tasks[id := s.tasks[id].(phase := Leaving(cancelled))])
    case Leave(i, _, now) =>
      var id := s.pool.leaving[i];
      EndTask(t, id, Deserted(s.tasks[id].phase.cancelled), now)
    case GiveUpEntering(id, cancelled, now) => EndTask(t, id, Deserted(cancelled), now)
    case CancelFresh(id) => t.(tasks := s.tasks - {id},
                              unborn := if s.tasks[id].isJob then s.unborn + {id} else s.unborn)
    case RunEnds(id, run) =>
      var w := s.tasks[id].phase.worker;
      t.(tasks := s.tasks[id := s.tasks[id].(phase := Retiring(w, run))], released := s.released + multiset{w})
    case Settles(id, release, now) => EndTask(t, id, EndingOf(s.tasks[id].phase.run, release), now)
    case CancelDead(id, now) => t.(jobs := Jobs.Put(s.jobs, Jobs.FinishCancelled(Jobs.Find(s.jobs, id).value, now)))
    case List(now) => t.(jobs := Jobs.Reap(s.jobs, now, conf.retention, conf.maxJobs))
    case TearDown(_, _) => t.(closing := ClosingAfter(s, e))
    case CleanupEnds(_) => t.(closing := ClosingAfter(s, e))
    case ShutdownEnds(_) => t.(closing := ClosingAfter(s, e))
  }

  // ---- runs ----

  predicate Happens(conf: Settings, s: System, events: seq<Event>)
    decreases |events|
  {
    events == [] || (May(conf, s, events[0]) && Happens(conf, Next(conf, s, events[0]), events[1..]))
  }

  function Then(conf: Settings, s: System, events: seq<Event>): System
    requires Happens(conf, s, events)
    decreases |events|
  {
    if events == [] then s else Then(conf, Next(conf, s, events[0]), events[1..])
  }

  ghost predicate Attainable(conf: Settings, s: System) {
    exists now, events :: Happens(conf, Initially(conf, now), events) && Then(conf, Initially(conf, now), events) == s
  }
}

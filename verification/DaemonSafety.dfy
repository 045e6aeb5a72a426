/** What holds of the daemon in every run: each worker out is held by exactly one task
    and released exactly once, jobs finish once, cancellation is a fact, and an orderly
    shutdown leaves nothing behind. */
module DaemonSafety {
  import opened Runner
  import Jobs
  import opened PoolModel
  import opened PoolInvariant
  import opened PoolSteps
  import opened PoolSafety
  import opened Daemon

  predicate OutNow(at: map<nat, Place>, w: nat) {
    w in at && at[w].Out?
  }

  /** A worker is out with a caller exactly when that caller's task is running it. */
  ghost predicate Linked(at: map<nat, Place>, tasks: map<nat, Task>) {
    forall w, c :: (w in at && at[w] == Out(c)) <==> (c in tasks && tasks[c].phase == Holding(w))
  }

  /** A worker that acquire() returned has been given to release_in_background once, or
      is still out and has not; no other worker has. */
  ghost predicate ReleasedOnce(pool: State, handed: set<nat>, released: multiset<nat>) {
    && (forall w :: released[w] == if w in handed && !OutNow(pool.at, w) then 1 else 0)
    && (forall w :: OutNow(pool.at, w) ==> w in handed)
    && (forall w :: w in handed ==> Spent(pool, w))
  }

  /** Jobs against tasks: a job with a live task is running, and a running job without
      one lost it before its first step. */
  ghost predicate JobsMatch(jobs: seq<Job>, tasks: map<nat, Task>, unborn: set<nat>, nextId: nat) {
    && Jobs.UniqueIds(jobs)
    && (forall j :: j in jobs ==> j.id < nextId)
    && (forall id :: id in tasks ==> id < nextId && id !in unborn)
    && (forall id :: id in unborn ==> id < nextId)
    && (forall j :: j in jobs && j.id in tasks ==> tasks[j.id].isJob && !j.Terminal())
    && (forall j :: j in jobs && !j.Terminal() ==> j.id in tasks || j.id in unborn)
    && (forall id :: id in tasks && tasks[id].isJob ==> Jobs.Find(jobs, id).Some?)
  }

  ghost predicate SystemInv(conf: Settings, s: System) {
    && Inv(conf.pool, s.pool)
    && Linked(s.pool.at, s.tasks)
    && ReleasedOnce(s.pool, s.handed, s.released)
    && JobsMatch(s.jobs, s.tasks, s.unborn, s.nextId)
  }

  // ---- custody and the history of releases ----

  lemma OutHasCaller(at: map<nat, Place>, w: nat)
    ensures OutNow(at, w) <==> exists c :: w in at && at[w] == Out(c)
  {
    if OutNow(at, w) {
      assert at[w] == Out(at[w].call);
    }
  }

  lemma SameOutNow(a: map<nat, Place>, b: map<nat, Place>, w: nat)
    requires SameOut(a, b)
    ensures OutNow(a, w) <==> OutNow(b, w)
  {
    OutHasCaller(a, w);
    OutHasCaller(b, w);
  }

  lemma HandedStaySpent(conf: Settings, s: State, l: Label, handed: set<nat>)
    requires Enabled(conf.pool, s, l) && forall w :: w in handed ==> Spent(s, w)
    ensures forall w :: w in handed ==> Spent(Step(conf.pool, s, l), w)
  {
    forall w | w in handed ensures Spent(Step(conf.pool, s, l), w) { SpentStays(conf.pool, s, l, w); }
  }

  /** Nobody moves in or out of a caller's hands. */
  lemma HistoryFrame(s: State, t: State, handed: set<nat>, released: multiset<nat>)
    requires ReleasedOnce(s, handed, released) && SameOut(s.at, t.at)
    requires forall w :: w in handed ==> Spent(t, w)
    ensures ReleasedOnce(t, handed, released)
  {
    forall w ensures OutNow(t.at, w) <==> OutNow(s.at, w) { SameOutNow(s.at, t.at, w); }
  }

  lemma HistoryHandOut(s: State, t: State, w: nat, call: nat, handed: set<nat>, released: multiset<nat>)
    requires ReleasedOnce(s, handed, released) && w in s.at && s.at[w].Idle? && SameOut(s.at[w := Out(call)], t.at)
    requires Spent(t, w) && forall v :: v in handed ==> Spent(t, v)
    ensures ReleasedOnce(t, handed + {w}, released)
  {
    forall v ensures OutNow(t.at, v) <==> OutNow(s.at[w := Out(call)], v) { SameOutNow(s.at[w := Out(call)], t.at, v); }
    assert w !in handed;
  }

  lemma HistoryRelease(s: State, w: nat, handed: set<nat>, released: multiset<nat>)
    requires ReleasedOnce(s, handed, released) && OutNow(s.at, w)
    ensures ReleasedOnce(s.(at := s.at[w := ReleaseQueued]), handed, released + multiset{w})
  {
  }

  // ---- the answers of acquire ----

  lemma AnswerOut(conf: Settings, s: State, l: Label)
    requires Inv(conf.pool, s) && Enabled(conf.pool, s, l) && Asks(l)
    ensures var a := AnswerOf(conf.pool, s, l).value;
            var t := Step(conf.pool, s, l);
            if a.Got? then SameOut(s.at[a.worker.id := Out(CallerOf(s, l))], t.at)
                 && a.worker.id in s.at && s.at[a.worker.id].Idle?
            else SameOut(s.at, t.at)
  {
    if l.AcquireEnter? {
      LoopTopOut(conf.pool, s, l.call);
    } else {
      WokenKeeps(conf.pool, s, l.index);
      LoopTopOut(conf.pool, Woken(s, l.index), s.notified[l.index].call);
    }
  }

  // ---- jobs ----

  lemma JobsStayFound(jobs: seq<Job>, done: Job, k: nat)
    requires Jobs.UniqueIds(jobs) && Jobs.UniqueIds(Jobs.Put(jobs, done)) && Jobs.Find(jobs, k).Some? && k != done.id
    ensures Jobs.Find(Jobs.Put(jobs, done), k).Some?
  {
    Jobs.FindMeans(jobs, k);
    Jobs.PutMeans(jobs, done);
    Jobs.FindMeans(Jobs.Put(jobs, done), k);
    assert Jobs.Find(jobs, k).value in Jobs.Put(jobs, done);
  }

  lemma JobsEnd(s: System, id: nat, e: Ending, now: real)
    requires JobsMatch(s.jobs, s.tasks, s.unborn, s.nextId) && id in s.tasks
    ensures var t := EndTask(s, id, e, now); JobsMatch(t.jobs, t.tasks, t.unborn, t.nextId)
  {
    if s.tasks[id].isJob {
      Jobs.FindMeans(s.jobs, id);
      JobsPutDone(s.jobs, s.tasks, s.unborn, s.nextId, Jobs.Finished(Jobs.Find(s.jobs, id).value, e, now));
    } else {
      RequestEnds(s.jobs, s.tasks, s.unborn, s.nextId, id);
    }
  }

  lemma RequestEnds(jobs: seq<Job>, tasks: map<nat, Task>, unborn: set<nat>, nextId: nat, id: nat)
    requires JobsMatch(jobs, tasks, unborn, nextId) && id in tasks && !tasks[id].isJob
    ensures JobsMatch(jobs, tasks - {id}, unborn, nextId)
  {
  }

  lemma JobsPutDone(jobs: seq<Job>, tasks: map<nat, Task>, unborn: set<nat>, nextId: nat, done: Job)
    requires JobsMatch(jobs, tasks, unborn, nextId) && done.id in tasks && tasks[done.id].isJob && done.Terminal()
    ensures JobsMatch(Jobs.Put(jobs, done), tasks - {done.id}, unborn, nextId)
  {
    Jobs.PutMeans(jobs, done);
    forall k | k in tasks && k != done.id && tasks[k].isJob ensures Jobs.Find(Jobs.Put(jobs, done), k).Some? {
      JobsStayFound(jobs, done, k);
    }
  }

  lemma JobsPhase(s: System, id: nat, p: Phase)
    requires JobsMatch(s.jobs, s.tasks, s.unborn, s.nextId) && id in s.tasks
    ensures JobsMatch(s.jobs, s.tasks[id := s.tasks[id].(phase := p)], s.unborn, s.nextId)
  {
  }

  lemma JobsReap(conf: Settings, s: System, now: real)
    requires JobsMatch(s.jobs, s.tasks, s.unborn, s.nextId)
    ensures JobsMatch(Jobs.Reap(s.jobs, now, conf.retention, conf.maxJobs), s.tasks, s.unborn, s.nextId)
  {
    var r := Jobs.Reap(s.jobs, now, conf.retention, conf.maxJobs);
    Jobs.ReapMeans(s.jobs, now, conf.retention, conf.maxJobs);
    forall k | k in s.tasks && s.tasks[k].isJob ensures Jobs.Find(r, k).Some? {
      Jobs.FindMeans(s.jobs, k);
      Jobs.FindMeans(r, k);
      assert Jobs.Find(s.jobs, k).value in r;
    }
  }

  lemma JobsSubmit(conf: Settings, s: System, prompt: string, timeoutSec: real, now: real)
    requires JobsMatch(s.jobs, s.tasks, s.unborn, s.nextId)
    ensures var job := Jobs.NewJob(s.nextId, prompt, timeoutSec, now);
            JobsMatch(Jobs.Submit(s.jobs, job, now, conf.retention, conf.maxJobs),
                      s.tasks[s.nextId := Task(true, Fresh)], s.unborn, s.nextId + 1)
  {
    var job := Jobs.NewJob(s.nextId, prompt, timeoutSec, now);
    var kept := Jobs.Reap(s.jobs, now, conf.retention, conf.maxJobs);
    var r := Jobs.Submit(s.jobs, job, now, conf.retention, conf.maxJobs);
    JobsReap(conf, s, now);
    Jobs.AddedLast(kept, job);
    Jobs.AddUnique(kept, job);
    var tasks := s.tasks[s.nextId := Task(true, Fresh)];
    forall k | k in tasks && tasks[k].isJob ensures Jobs.Find(r, k).Some? {
      Jobs.FindMeans(kept, k);
      Jobs.FindMeans(r, k);
      if k != s.nextId { assert Jobs.Find(kept, k).value in r; }
    }
  }

  lemma JobsCancelDead(s: System, id: nat, now: real)
    requires JobsMatch(s.jobs, s.tasks, s.unborn, s.nextId) && id !in s.tasks && Jobs.Find(s.jobs, id).Some?
    ensures JobsMatch(Jobs.Put(s.jobs, Jobs.FinishCancelled(Jobs.Find(s.jobs, id).value, now)),
                      s.tasks, s.unborn, s.nextId)
  {
    Jobs.FindMeans(s.jobs, id);
    var done := Jobs.FinishCancelled(Jobs.Find(s.jobs, id).value, now);
    var r := Jobs.Put(s.jobs, done);
    Jobs.PutMeans(s.jobs, done);
    forall k | k in s.tasks && s.tasks[k].isJob ensures Jobs.Find(r, k).Some? {
      Jobs.FindMeans(s.jobs, k);
      Jobs.FindMeans(r, k);
      assert Jobs.Find(s.jobs, k).value in r;
    }
  }

  // ---- every event keeps the invariant ----

  lemma RelinkSame(at: map<nat, Place>, to: map<nat, Place>, tasks: map<nat, Task>)
    requires Linked(at, tasks) && SameOut(at, to)
    ensures Linked(to, tasks)
  {
  }

  /** A task that holds nothing changes its phase, or goes away, and still holds nothing. */
  lemma RelinkIdleTask(at: map<nat, Place>, tasks: map<nat, Task>, to: map<nat, Task>, id: nat)
    requires Linked(at, tasks)
    requires id in tasks ==> !tasks[id].phase.Holding?
    requires id in to ==> !to[id].phase.Holding?
    requires forall c :: c != id ==> (c in tasks <==> c in to) && (c in tasks ==> tasks[c] == to[c])
    ensures Linked(at, to)
  {
  }

  /** Events by which a pool task or a waiting caller moves, but nobody gets or gives back a worker. */
  predicate Neutral(e: Event) {
    e.Background? || e.GiveUp? || e.Leave?
  }

  /** The pool's part of a neutral event. */
  lemma NeutralPool(conf: Settings, s: System, l: Label)
    requires SystemInv(conf, s) && Enabled(conf.pool, s.pool, l) && !Asks(l) && !l.ReleaseScheduled?
    ensures SystemInv(conf, s.(pool := Step(conf.pool, s.pool, l)))
  {
    StepKeepsInv(conf.pool, s.pool, l);
    OthersKeepOut(conf.pool, s.pool, l);
    HandedStaySpent(conf, s.pool, l, s.handed);
    HistoryFrame(s.pool, Step(conf.pool, s.pool, l), s.handed, s.released);
    RelinkSame(s.pool.at, Step(conf.pool, s.pool, l).at, s.tasks);
  }

  lemma BackgroundKeeps(conf: Settings, s: System, l: Label)
    requires SystemInv(conf, s) && May(conf, s, Background(l))
    ensures SystemInv(conf, Next(conf, s, Background(l)))
  {
    NeutralPool(conf, s, l);
  }

  lemma GiveUpKeeps(conf: Settings, s: System, i: nat, parked: bool, cancelled: bool)
    requires SystemInv(conf, s) && May(conf, s, GiveUp(i, parked, cancelled))
    ensures SystemInv(conf, Next(conf, s, GiveUp(i, parked, cancelled)))
  {
    var l := if parked then CancelParked(i) else CancelNotified(i);
    NeutralPool(conf, s, l);
    PhaseKeeps(conf, s.(pool := Step(conf.pool, s.pool, l)),
               if parked then s.pool.parked[i].call else s.pool.notified[i].call, Leaving(cancelled));
  }

  lemma LeaveKeeps(conf: Settings, s: System, i: nat, relays: bool, now: real)
    requires SystemInv(conf, s) && May(conf, s, Leave(i, relays, now))
    ensures SystemInv(conf, Next(conf, s, Leave(i, relays, now)))
  {
    NeutralPool(conf, s, CancelledLeaves(i, relays));
    var t := s.(pool := Step(conf.pool, s.pool, CancelledLeaves(i, relays)));
    EndKeeps(conf, t, s.pool.leaving[i], Deserted(s.tasks[s.pool.leaving[i]].phase.cancelled), now);
  }

  lemma NeutralKeeps(conf: Settings, s: System, e: Event)
    requires SystemInv(conf, s) && May(conf, s, e) && Neutral(e)
    ensures SystemInv(conf, Next(conf, s, e))
  {
    if e.Background? { BackgroundKeeps(conf, s, e.step); }
    else if e.GiveUp? { GiveUpKeeps(conf, s, e.index, e.parked, e.cancelled); }
    else { LeaveKeeps(conf, s, e.index, e.relays, e.now); }
  }

  lemma EndKeeps(conf: Settings, t: System, id: nat, e: Ending, now: real)
    requires SystemInv(conf, t) && id in t.tasks && !t.tasks[id].phase.Holding?
    ensures SystemInv(conf, EndTask(t, id, e, now))
  {
    JobsEnd(t, id, e, now);
    RelinkIdleTask(t.pool.at, t.tasks, EndTask(t, id, e, now).tasks, id);
  }

  lemma PhaseKeeps(conf: Settings, t: System, id: nat, p: Phase)
    requires SystemInv(conf, t) && id in t.tasks && !t.tasks[id].phase.Holding? && !p.Holding?
    ensures SystemInv(conf, t.(tasks := t.tasks[id := t.tasks[id].(phase := p)]))
  {
    JobsPhase(t, id, p);
    RelinkIdleTask(t.pool.at, t.tasks, t.tasks[id := t.tasks[id].(phase := p)], id);
  }

  /** Events in which the pool does not move. */
  predicate WithoutPool(e: Event) {
    e.Submit? || e.Arrive? || e.FirstStep? || e.GiveUpEntering? || e.CancelFresh?
    || e.Settles? || e.CancelDead? || e.List?
  }

  lemma SubmitKeeps(conf: Settings, s: System, prompt: string, timeoutSec: real, now: real)
    requires SystemInv(conf, s)
    ensures SystemInv(conf, Next(conf, s, Submit(prompt, timeoutSec, now)))
  {
    JobsSubmit(conf, s, prompt, timeoutSec, now);
    RelinkIdleTask(s.pool.at, s.tasks, s.tasks[s.nextId := Task(true, Fresh)], s.nextId);
  }

  lemma CreationKeeps(conf: Settings, s: System, e: Event)
    requires SystemInv(conf, s) && May(conf, s, e) && (e.Submit? || e.Arrive? || e.CancelFresh?)
    ensures SystemInv(conf, Next(conf, s, e))
  {
    match e
    case Submit(prompt, timeoutSec, now) => SubmitKeeps(conf, s, prompt, timeoutSec, now);
    case Arrive => RelinkIdleTask(s.pool.at, s.tasks, s.tasks[s.nextId := Task(false, Fresh)], s.nextId);
    case CancelFresh(id) => RelinkIdleTask(s.pool.at, s.tasks, s.tasks - {id}, id);
  }

  predicate MovesStore(e: Event) {
    e.List? || e.CancelDead?
  }

  lemma StoreKeeps(conf: Settings, s: System, e: Event)
    requires SystemInv(conf, s) && May(conf, s, e) && MovesStore(e)
    ensures SystemInv(conf, Next(conf, s, e))
  {
    match e
    case CancelDead(id, now) => JobsCancelDead(s, id, now);
    case List(now) => JobsReap(conf, s, now);
  }

  lemma ClosingKeeps(conf: Settings, s: System, e: Event)
    requires SystemInv(conf, s) && May(conf, s, e) && Closes(e)
    ensures SystemInv(conf, Next(conf, s, e))
  {
    if StopsPool(s, e) { NeutralPool(conf, s, StopBegins); }
  }

  lemma MovingKeeps(conf: Settings, s: System, e: Event)
    requires SystemInv(conf, s) && May(conf, s, e) && (e.FirstStep? || e.GiveUpEntering? || e.Settles?)
    ensures SystemInv(conf, Next(conf, s, e))
  {
    match e
    case FirstStep(id) => PhaseKeeps(conf, s, id, Entering);
    case GiveUpEntering(id, cancelled, now) => EndKeeps(conf, s, id, Deserted(cancelled), now);
    case Settles(id, release, now) => EndKeeps(conf, s, id, EndingOf(s.tasks[id].phase.run, release), now);
  }

  lemma WithoutPoolKeeps(conf: Settings, s: System, e: Event)
    requires SystemInv(conf, s) && May(conf, s, e) && WithoutPool(e)
    ensures SystemInv(conf, Next(conf, s, e))
  {
    if MovesStore(e) { StoreKeeps(conf, s, e); }
    else if e.FirstStep? || e.GiveUpEntering? || e.Settles? { MovingKeeps(conf, s, e); }
    else { CreationKeeps(conf, s, e); }
  }

  /** The caller and the pool step of a turn of the acquire loop. */
  ghost predicate Turning(conf: Settings, s: System, l: Label, id: nat) {
    && Enabled(conf.pool, s.pool, l) && Asks(l)
    && id == CallerOf(s.pool, l)
    && id in s.tasks && !s.tasks[id].phase.Holding?
  }

  lemma GotKeeps(conf: Settings, s: System, l: Label, id: nat, w: nat)
    requires SystemInv(conf, s) && Turning(conf, s, l, id)
    requires AnswerOf(conf.pool, s.pool, l).value.Got? && AnswerOf(conf.pool, s.pool, l).value.worker.id == w
    ensures var t := s.(pool := Step(conf.pool, s.pool, l),
                      tasks := s.tasks[id := s.tasks[id].(phase := Holding(w))],
                      handed := s.handed + {w});
            SystemInv(conf, t)
  {
    var to := Step(conf.pool, s.pool, l).at;
    StepKeepsInv(conf.pool, s.pool, l);
    AnswerOut(conf, s.pool, l);
    HandedOutIsSpent(conf.pool, s.pool, l);
    HandedStaySpent(conf, s.pool, l, s.handed);
    HistoryHandOut(s.pool, Step(conf.pool, s.pool, l), w, id, s.handed, s.released);
    JobsPhase(s, id, Holding(w));
    var at, tasks := s.pool.at[w := Out(id)], s.tasks[id := s.tasks[id].(phase := Holding(w))];
    LinkNew(s.pool.at, s.tasks, w, id);
    RelinkSame(at, to, tasks);
  }

  lemma LinkNew(at: map<nat, Place>, tasks: map<nat, Task>, w: nat, id: nat)
    requires Linked(at, tasks) && w in at && at[w].Idle? && id in tasks && !tasks[id].phase.Holding?
    ensures Linked(at[w := Out(id)], tasks[id := tasks[id].(phase := Holding(w))])
  {
  }

  lemma NothingKeeps(conf: Settings, s: System, l: Label, id: nat)
    requires SystemInv(conf, s) && Turning(conf, s, l, id) && !AnswerOf(conf.pool, s.pool, l).value.Got?
    ensures SystemInv(conf, s.(pool := Step(conf.pool, s.pool, l)))
  {
    StepKeepsInv(conf.pool, s.pool, l);
    AnswerOut(conf, s.pool, l);
    HandedStaySpent(conf, s.pool, l, s.handed);
    HistoryFrame(s.pool, Step(conf.pool, s.pool, l), s.handed, s.released);
    RelinkSame(s.pool.at, Step(conf.pool, s.pool, l).at, s.tasks);
  }

  lemma AnsweredKeeps(conf: Settings, s: System, l: Label, id: nat, now: real)
    requires SystemInv(conf, s) && Turning(conf, s, l, id)
    ensures SystemInv(conf, Answered(s.(pool := Step(conf.pool, s.pool, l)), id,
                                     AnswerOf(conf.pool, s.pool, l).value, now))
  {
    var answer := AnswerOf(conf.pool, s.pool, l).value;
    if answer.Got? {
      GotKeeps(conf, s, l, id, answer.worker.id);
    } else {
      NothingKeeps(conf, s, l, id);
      var t := s.(pool := Step(conf.pool, s.pool, l));
      match answer
      case Waits => PhaseKeeps(conf, t, id, Queued);
      case ShuttingDown => EndKeeps(conf, t, id, Refused("pool is shutting down"), now);
      case SpawnError(error) => EndKeeps(conf, t, id, Refused("worker spawn failed: " + error), now);
    }
  }

  lemma LinkGone(at: map<nat, Place>, tasks: map<nat, Task>, w: nat, id: nat, p: Phase)
    requires Linked(at, tasks) && id in tasks && tasks[id].phase == Holding(w) && !p.Holding?
    ensures OutNow(at, w) && Linked(at[w := ReleaseQueued], tasks[id := tasks[id].(phase := p)])
  {
    assert w in at && at[w] == Out(id);
  }

  lemma RunEndsKeeps(conf: Settings, s: System, id: nat, run: RunEnd)
    requires SystemInv(conf, s) && May(conf, s, RunEnds(id, run))
    ensures SystemInv(conf, Next(conf, s, RunEnds(id, run)))
  {
    var w := s.tasks[id].phase.worker;
    StepKeepsInv(conf.pool, s.pool, ReleaseScheduled(w));
    LinkGone(s.pool.at, s.tasks, w, id, Retiring(w, run));
    HistoryRelease(s.pool, w, s.handed, s.released);
    JobsPhase(s, id, Retiring(w, run));
  }

  lemma NextKeepsInv(conf: Settings, s: System, e: Event)
    requires SystemInv(conf, s) && May(conf, s, e)
    ensures SystemInv(conf, Next(conf, s, e))
  {
    if Neutral(e) {
      NeutralKeeps(conf, s, e);
    } else if WithoutPool(e) {
      WithoutPoolKeeps(conf, s, e);
    } else if Closes(e) {
      ClosingKeeps(conf, s, e);
    } else if e.Ask? {
      AnsweredKeeps(conf, s, AcquireEnter(e.id), e.id, e.now);
    } else if e.Look? {
      AnsweredKeeps(conf, s, AcquireResume(e.index), s.pool.notified[e.index].call, e.now);
    } else {
      RunEndsKeeps(conf, s, e.id, e.run);
    }
  }

  lemma {:induction false} HistoryKeepsInv(conf: Settings, s: System, events: seq<Event>)
    requires SystemInv(conf, s) && Happens(conf, s, events)
    ensures SystemInv(conf, Then(conf, s, events))
    decreases |events|
  {
    if events != [] {
      NextKeepsInv(conf, s, events[0]);
      HistoryKeepsInv(conf, Next(conf, s, events[0]), events[1..]);
    }
  }

  lemma AttainableInv(conf: Settings, s: System)
    requires Attainable(conf, s)
    ensures SystemInv(conf, s)
  {
    var now, events :| Happens(conf, Initially(conf, now), events) && Then(conf, Initially(conf, now), events) == s;
    InitialInv(conf.pool, now);
    HistoryKeepsInv(conf, Initially(conf, now), events);
  }

  // ---- main results ----

  /** Exactly-once release: in every run of the whole daemon, each worker that acquire()
      has returned is either held by exactly one task, which is running it, and has not
      been released, or has been given to release_in_background exactly once. Workers
      that were never handed out are never released. */
  lemma ExactlyOneReleasePerWorker(conf: Settings, s: System, w: nat)
    requires Attainable(conf, s)
    ensures w in s.handed ==>
              (s.released[w] == 1 && !exists c :: InPhase(s, c, Holding(w)))
              || (s.released[w] == 0
                  && exists c :: InPhase(s, c, Holding(w)) && forall d :: InPhase(s, d, Holding(w)) ==> d == c)
    ensures w !in s.handed ==> s.released[w] == 0 && !exists c :: InPhase(s, c, Holding(w))
  {
    AttainableInv(conf, s);
    if OutNow(s.pool.at, w) {
      var c := s.pool.at[w].call;
      assert s.pool.at[w] == Out(c);
      assert InPhase(s, c, Holding(w));
    }
    forall c | InPhase(s, c, Holding(w)) ensures OutNow(s.pool.at, w) && s.pool.at[w] == Out(c) {
      assert w in s.pool.at && s.pool.at[w] == Out(c);
    }
  }

  /** Cancelling is a fact: once a job's task is gone (which is what cancel() and
      shutdown() wait for) no worker is out on its behalf, and the job is finished,
      unless its task was cancelled before its first step. */
  lemma CancelIsAFact(conf: Settings, s: System, j: Job)
    requires Attainable(conf, s) && j in s.jobs && j.id !in s.tasks
    ensures j.Terminal() || j.id in s.unborn
    ensures forall w :: w in s.pool.at ==> s.pool.at[w] != Out(j.id)
  {
    AttainableInv(conf, s);
    forall w | w in s.pool.at ensures s.pool.at[w] != Out(j.id) {
      assert s.pool.at[w] == Out(j.id) ==> j.id in s.tasks;
    }
  }

  /** The exception: cancelling a job's task before its first step leaves the job RUNNING
      with no task to finish it, and a second cancel() finishes it. */
  lemma CancelAgain(jobs: seq<Job>, id: nat, now: real)
    requires Jobs.UniqueIds(jobs) && Jobs.Find(jobs, id).Some?
    ensures var found := Jobs.Find(Jobs.Put(jobs, Jobs.FinishCancelled(Jobs.Find(jobs, id).value, now)), id);
            found.Some? && found.value.status == Jobs.CancelledStatus
  {
    Jobs.FindMeans(jobs, id);
    var done := Jobs.FinishCancelled(Jobs.Find(jobs, id).value, now);
    Jobs.PutMeans(jobs, done);
    Jobs.FindMeans(Jobs.Put(jobs, done), id);
    assert done in Jobs.Put(jobs, done);
  }

  lemma FreshIsStranded(conf: Settings, s: System, id: nat)
    requires Attainable(conf, s) && InPhase(s, id, Fresh) && s.tasks[id].isJob
    ensures var t := Next(conf, s, CancelFresh(id));
            && id !in t.tasks && t.jobs == s.jobs && Jobs.UniqueIds(s.jobs)
            && Jobs.Find(s.jobs, id).Some? && !Jobs.Find(s.jobs, id).value.Terminal()
  {
    AttainableInv(conf, s);
    Jobs.FindMeans(s.jobs, id);
  }

  lemma CancelBeforeFirstStep(conf: Settings, s: System, id: nat, now: real)
    requires Attainable(conf, s) && InPhase(s, id, Fresh) && s.tasks[id].isJob
    ensures var t := Next(conf, s, CancelFresh(id));
            && id !in t.tasks && Jobs.Find(t.jobs, id).Some? && !Jobs.Find(t.jobs, id).value.Terminal()
            && May(conf, t, CancelDead(id, now))
            && var u := Next(conf, t, CancelDead(id, now));
               Jobs.Find(u.jobs, id).Some? && Jobs.Find(u.jobs, id).value.status == Jobs.CancelledStatus
  {
    FreshIsStranded(conf, s, id);
    CancelAgain(s.jobs, id, now);
  }

  lemma UnbornStep(conf: Settings, s: System, e: Event, id: nat)
    requires May(conf, s, e) && id !in s.unborn && e != CancelFresh(id)
    ensures id !in Next(conf, s, e).unborn
  {
  }

  lemma {:induction false} UnbornRun(conf: Settings, s: System, events: seq<Event>, id: nat)
    requires Happens(conf, s, events) && id !in s.unborn && CancelFresh(id) !in events
    ensures id !in Then(conf, s, events).unborn
    decreases |events|
  {
    if events != [] {
      UnbornStep(conf, s, events[0], id);
      UnbornRun(conf, Next(conf, s, events[0]), events[1..], id);
    }
  }

  /** Over whole runs: a job that is running without a task had its task cancelled before
      its first step. Nothing else the daemon does ever leaves a job behind. */
  lemma LeftRunningOnlyByCancelFresh(conf: Settings, t0: real, events: seq<Event>, j: Job)
    requires Happens(conf, Initially(conf, t0), events)
    requires j in Then(conf, Initially(conf, t0), events).jobs && !j.Terminal()
             && j.id !in Then(conf, Initially(conf, t0), events).tasks
    ensures CancelFresh(j.id) in events
  {
    InitialInv(conf.pool, t0);
    HistoryKeepsInv(conf, Initially(conf, t0), events);
    if CancelFresh(j.id) !in events {
      UnbornRun(conf, Initially(conf, t0), events, j.id);
    }
  }

  // ---- a job that was left running ----

  ghost predicate LeftRunning(s: System, j: Job) {
    j in s.jobs && !j.Terminal() && j.id !in s.tasks
  }

  lemma LeftByEnd(s: System, t: System, id: nat, e: Ending, now: real, j: Job)
    requires JobsMatch(s.jobs, s.tasks, s.unborn, s.nextId) && LeftRunning(s, j) && id in s.tasks
    requires t.tasks == s.tasks && t.jobs == s.jobs
    ensures LeftRunning(EndTask(t, id, e, now), j)
  {
    Jobs.FindMeans(s.jobs, id);
    if s.tasks[id].isJob && Jobs.Find(s.jobs, id).Some? {
      Jobs.PutMeans(s.jobs, Jobs.Finished(Jobs.Find(s.jobs, id).value, e, now));
    }
  }

  lemma LeftByAnswer(s: System, t: System, id: nat, answer: Answer, now: real, j: Job)
    requires JobsMatch(s.jobs, s.tasks, s.unborn, s.nextId) && LeftRunning(s, j) && id in s.tasks
    requires t.tasks == s.tasks && t.jobs == s.jobs
    ensures LeftRunning(Answered(t, id, answer, now), j)
  {
    match answer
    case ShuttingDown => LeftByEnd(s, t, id, Refused("pool is shutting down"), now, j);
    case SpawnError(error) => LeftByEnd(s, t, id, Refused("worker spawn failed: " + error), now, j);
    case _ =>
  }

  /** Events that rewrite the store. */
  lemma LeftByStore(conf: Settings, s: System, e: Event, j: Job)
    requires JobsMatch(s.jobs, s.tasks, s.unborn, s.nextId) && LeftRunning(s, j) && May(conf, s, e)
    requires e.Submit? || e.List? || (e.CancelDead? && e.id != j.id)
    ensures LeftRunning(Next(conf, s, e), j)
  {
    match e
    case Submit(prompt, timeoutSec, now) =>
      Jobs.SubmitBound(s.jobs, Jobs.NewJob(s.nextId, prompt, timeoutSec, now), now, conf.retention, conf.maxJobs);
    case List(now) => Jobs.ReapMeans(s.jobs, now, conf.retention, conf.maxJobs);
    case CancelDead(id, now) =>
      Jobs.FindMeans(s.jobs, id);
      Jobs.PutMeans(s.jobs, Jobs.FinishCancelled(Jobs.Find(s.jobs, id).value, now));
  }

  predicate EndsTask(e: Event) {
    e.Leave? || e.GiveUpEntering? || e.Settles?
  }

  /** Events that end some task, after which its job, if it is one, is finished. */
  lemma LeftByTaskEnd(conf: Settings, s: System, e: Event, j: Job)
    requires SystemInv(conf, s) && May(conf, s, e) && LeftRunning(s, j) && EndsTask(e)
    ensures LeftRunning(Next(conf, s, e), j)
  {
    var t := s.(pool := PoolAfter(conf, s, e));
    match e
    case Leave(i, _, now) => LeftByEnd(s, t, s.pool.leaving[i],
                                 Deserted(s.tasks[s.pool.leaving[i]].phase.cancelled), now, j);
    case GiveUpEntering(id, cancelled, now) => LeftByEnd(s, t, id, Deserted(cancelled), now, j);
    case Settles(id, release, now) => LeftByEnd(s, t, id, EndingOf(s.tasks[id].phase.run, release), now, j);
  }

  lemma LeftByTurn(conf: Settings, s: System, e: Event, j: Job)
    requires SystemInv(conf, s) && May(conf, s, e) && LeftRunning(s, j) && (e.Ask? || e.Look?)
    ensures LeftRunning(Next(conf, s, e), j)
  {
    var t := s.(pool := PoolAfter(conf, s, e));
    match e
    case Ask(id, now) => LeftByAnswer(s, t, id, LoopTop(conf.pool, s.pool, id).answer, now, j);
    case Look(i, now) => LeftByAnswer(s, t, s.pool.notified[i].call, Wake(conf.pool, s.pool, i).answer, now, j);
  }

  predicate RewritesStore(e: Event) {
    e.Submit? || e.List? || e.CancelDead?
  }

  lemma LeftElsewhere(conf: Settings, s: System, e: Event, j: Job)
    requires May(conf, s, e) && LeftRunning(s, j) && !EndsTask(e) && !e.Ask? && !e.Look? && !RewritesStore(e)
    requires j.id < s.nextId
    ensures LeftRunning(Next(conf, s, e), j)
  {
  }

  lemma LeftStep(conf: Settings, s: System, e: Event, j: Job)
    requires SystemInv(conf, s) && May(conf, s, e) && LeftRunning(s, j) && !(e.CancelDead? && e.id == j.id)
    ensures LeftRunning(Next(conf, s, e), j)
  {
    if EndsTask(e) { LeftByTaskEnd(conf, s, e, j); }
    else if e.Ask? || e.Look? { LeftByTurn(conf, s, e, j); }
    else if RewritesStore(e) { LeftByStore(conf, s, e, j); }
    else { LeftElsewhere(conf, s, e, j); }
  }

  /** And such a job stays RUNNING, unreaped, until somebody cancels it again. */
  lemma {:induction false} LeftRunningStays(conf: Settings, s: System, events: seq<Event>, j: Job)
    requires SystemInv(conf, s) && Happens(conf, s, events) && LeftRunning(s, j)
    requires forall e :: e in events ==> !(e.CancelDead? && e.id == j.id)
    ensures LeftRunning(Then(conf, s, events), j)
    decreases |events|
  {
    if events != [] {
      LeftStep(conf, s, events[0], j);
      NextKeepsInv(conf, s, events[0]);
      LeftRunningStays(conf, Next(conf, s, events[0]), events[1..], j);
    }
  }
}

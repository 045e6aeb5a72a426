/** WorkerPool itself: its fields, and one method for each stretch of code that runs
    without giving up the event loop. Every method is proved to be the transition of
    the same name by what it writes, so what is proved about runs holds of the class. */
module WorkerPoolClass {
  import opened Wrappers
  import opened IdleQueue
  import opened PoolModel
  import opened PoolInvariant
  import opened PoolSteps

  /** The part of /health that looks at the processes. */
  datatype Stats = Stats(total: int, idle: nat, idleAlive: nat, busy: int, healthy: bool)

  function AliveCount(idle: seq<Worker>, live: set<nat>): (n: nat)
    ensures n <= |idle|
    ensures n == |idle| <==> forall i :: 0 <= i < |idle| ==> idle[i].id in live
  {
    if idle == [] then 0
    else
      var k := |idle| - 1;
      AliveCount(idle[..k], live) + (if idle[k].id in live then 1 else 0)
  }

  /** Which places of the queue hold a live worker. */
  function AlivePlaces(idle: seq<Worker>, live: set<nat>): set<nat> {
    set i: nat | i < |idle| && idle[i].id in live
  }

  lemma {:induction false} AliveCountMeans(idle: seq<Worker>, live: set<nat>)
    ensures AliveCount(idle, live) == |AlivePlaces(idle, live)|
    decreases |idle|
  {
    if idle != [] {
      var k := |idle| - 1;
      AliveCountMeans(idle[..k], live);
      assert AlivePlaces(idle, live) == AlivePlaces(idle[..k], live) + if idle[k].id in live then {k} else {};
    }
  }

  /** The sweep's loop over the idle queue. */
  method SweepPass(idle: seq<Worker>, allowed: int, draining: bool, now: real, timeout: real)
    returns (kills: seq<Worker>, survivors: seq<Worker>)
    ensures kills == Condemned(idle, allowed, draining, now, timeout)
    ensures survivors == IdleQueue.Survivors(idle, allowed, draining, now, timeout)
  {
    survivors := [];
    kills := [];
    for i := 0 to |idle|
      invariant kills + Condemned(idle[i..], allowed - |kills|, draining, now, timeout)
             == Condemned(idle, allowed, draining, now, timeout)
      invariant survivors + IdleQueue.Survivors(idle[i..], allowed - |kills|, draining, now, timeout)
             == IdleQueue.Survivors(idle, allowed, draining, now, timeout)
    {
      var w := idle[i];
      PassStep(idle, i, allowed - |kills|, draining, now, timeout);
      if |kills| < allowed && (draining || now - w.becameIdleAt > timeout) {
        kills := kills + [w];
      } else {
        survivors := survivors + [w];
      }
    }
  }

  lemma OneDropped(at: map<nat, Place>, idle: seq<Worker>, i: nat)
    requires i < |idle|
    ensures at - ToSet(WorkerIds(idle[..i + 1])) == at - ToSet(WorkerIds(idle[..i])) - {idle[i].id}
  {
    assert WorkerIds(idle[..i + 1]) == WorkerIds(idle[..i]) + [idle[i].id];
  }

  class WorkerPool {
    const cfg: Config
    var idle: seq<Worker>
    var total: int
    var waiting: int
    var pendingGrows: int
    var spawnError: Option<string>
    var lastReleaseAt: real
    var stopped: bool
    /** The condition: its lock, and the waiters that are parked on it or woken. */
    var lock: Holder
    var parked: seq<Ticket>
    var notified: seq<Ticket>
    /** The grows that have been scheduled and not begun. */
    var grows: nat
    /** The scale-down task and its kill list; how far stop() has come, and its own. */
    var sweep: Sweep
    var stop: Stop
    /** The processes that run, as Worker.is_alive() sees them. */
    var live: set<nat>
    /** The spawn attempts so far. */
    var log: seq<Attempt>
    ghost var at: map<nat, Place>
    ghost var next: nat
    ghost var leaving: seq<nat>
    ghost var closed: bool
    ghost var now: real

    ghost function View(): State
      reads this
    {
      State(Fields(idle, total, waiting, pendingGrows, spawnError, lastReleaseAt, stopped), live, at, next,
            lock, grows, parked, notified, leaving, sweep, stop, closed, log, now)
    }

    ghost predicate Valid()
      reads this
    {
      Inv(cfg, View())
    }

    ghost predicate Can(l: Label)
      reads this
    {
      Valid() && Enabled(cfg, View(), l)
    }

    constructor (cfg: Config, t: real)
      ensures this.cfg == cfg && View() == Initial(cfg, t) && Valid()
    {
      this.cfg := cfg;
      idle, total, waiting, pendingGrows := [], 0, 0, 0;
      spawnError, lastReleaseAt, stopped := None, t, false;
      lock := if cfg.minWorkers <= 0 then Free else Starting(cfg.minWorkers);
      parked, notified, grows := [], [], 0;
      sweep := if cfg.minWorkers <= 0 then Sleeping else NoSweep;
      stop, live, log := NotStopping, {}, [];
      at, next, leaving, closed, now := map[], 0, [], false, t;
      new;
      InitialInv(cfg, t);
    }

    // ---- the condition ----

    /** notify(): the longest-parked waiter wakes. */
    method Notify()
      modifies this`parked, this`notified
      ensures View() == PoolModel.Notify(old(View()))
    {
      if parked != [] {
        notified := notified + [parked[0]];
        parked := parked[1..];
      }
    }

    method NotifyAll()
      modifies this`parked, this`notified
      ensures View() == PoolModel.NotifyAll(old(View()))
    {
      notified := notified + parked;
      parked := [];
    }

    // ---- spawning ----

    /** worker.start() has returned. */
    method Launch(id: nat)
      requires id == next
      modifies this`live, this`log, this`next
      ensures View() == old(View()).(live := old(live) + {id}, log := old(log) + [Spawned], next := id + 1)
    {
      live := live + {id};
      log := log + [Spawned];
      next := id + 1;
    }

    /** The new worker joins the queue and is counted. */
    method Append(id: nat, t: real)
      modifies this`idle, this`total, this`spawnError, this`at
      ensures View() == var s := old(View());
                        s.(f := s.f.(idle := s.f.idle + [Worker(id, t)], total := s.f.total + 1, spawnError := None),
                           at := s.at[id := Idle])
    {
      idle := idle + [Worker(id, t)];
      total := total + 1;
      spawnError := None;
      at := at[id := Idle];
    }

    /** _spawn_and_add_idle_locked, once the process has started. */
    method AddStarted(id: nat, t: real)
      requires id == next && t == now
      modifies this
      ensures View() == AddWorker(old(View()))
    {
      Launch(id);
      Append(id, t);
      Notify();
    }

    /** The except branch of _try_spawn_and_add_idle_locked. */
    method KeepError(error: string)
      modifies this
      ensures View() == RecordFailure(old(View()), error)
    {
      spawnError := Some(error);
      log := log + [SpawnFailed(error)];
      Notify();
    }

    /** A grow or a replenish lets go of the lock; a grow also un-counts itself. */
    method LetGo()
      modifies this`lock, this`pendingGrows
      ensures View() == EndSpawn(old(View()))
    {
      if lock.Growing? {
        pendingGrows := pendingGrows - 1;
      }
      lock := Free;
    }

    /** start() goes on to its next spawn, or is over. */
    method NextPreWarm()
      requires lock.Starting? && lock.left > 0
      modifies this`lock, this`sweep
      ensures View() == if old(lock).left == 1 then old(View()).(lock := Free, sweep := Sleeping)
                        else old(View()).(lock := Starting(old(lock).left - 1))
    {
      if lock.left == 1 {
        lock := Free;
        sweep := Sleeping;
      } else {
        lock := Starting(lock.left - 1);
      }
    }

    /** start(): one more pre-warmed worker; after the last the lock is free and the sweep begins. */
    method PreWarm(id: nat, t: real)
      requires Can(StartSpawned) && id == next && t == now
      modifies this
      ensures View() == Step(cfg, old(View()), StartSpawned) && Valid()
    {
      StepKeepsInv(cfg, View(), StartSpawned);
      AddStarted(id, t);
      NextPreWarm();
    }

    /** A grow or a replenish whose spawn succeeded. */
    method SpawnLands(id: nat, t: real)
      requires Can(SpawnSucceeds) && id == next && t == now
      modifies this
      ensures View() == Step(cfg, old(View()), SpawnSucceeds) && Valid()
    {
      StepKeepsInv(cfg, View(), SpawnSucceeds);
      AddStarted(id, t);
      LetGo();
    }

    /** A grow or a replenish whose spawn raised: the error is kept and one waiter is told. */
    method SpawnRaises(error: string)
      requires Can(SpawnFails(error))
      modifies this
      ensures View() == Step(cfg, old(View()), SpawnFails(error)) && Valid()
    {
      StepKeepsInv(cfg, View(), SpawnFails(error));
      KeepError(error);
      LetGo();
    }

    /** A grow's turn: it is no longer scheduled, and spawns or un-counts itself. */
    method GrowOrNot()
      requires grows > 0
      modifies this`grows, this`pendingGrows, this`lock
      ensures View() == if old(total) >= cfg.maxWorkers || stopped
                        then old(View()).(grows := old(grows) - 1,
                               f := old(View()).f.(pendingGrows := old(pendingGrows) - 1))
                        else old(View()).(grows := old(grows) - 1, lock := Growing)
    {
      grows := grows - 1;
      if total >= cfg.maxWorkers || stopped {
        pendingGrows := pendingGrows - 1;
      } else {
        lock := Growing;
      }
    }

    /** _grow_by_one with the lock just taken: does it go on to spawn? */
    method BeginGrow() returns (spawns: bool)
      requires Can(GrowBegins)
      modifies this
      ensures View() == Step(cfg, old(View()), GrowBegins) && Valid() && spawns == lock.Growing?
    {
      StepKeepsInv(cfg, View(), GrowBegins);
      GrowOrNot();
      spawns := lock.Growing?;
    }

    // ---- acquire ----

    /** Nobody idle is alive: ask for a grow if there is room, and wait. */
    method ParkHere(call: nat)
      modifies this
      ensures View() == Park(cfg, old(View()), call)
    {
      if total < cfg.maxWorkers {
        pendingGrows := pendingGrows + 1;
        grows := grows + 1;
      }
      waiting := waiting + 1;
      parked := parked + [Ticket(call, |log|)];
    }

    method DropFirst()
      requires idle != []
      modifies this`idle, this`total, this`at
      ensures View() == var s := old(View());
                        s.(f := s.f.(idle := s.f.idle[1..], total := s.f.total - 1), at := s.at - {s.f.idle[0].id})
    {
      at := at - {idle[0].id};
      idle := idle[1..];
      total := total - 1;
    }

    /** Dead workers at the front of the queue are dropped one by one. */
    method DropDeadOnes()
      modifies this
      ensures View() == DropDead(old(View()))
      ensures idle != [] ==> idle[0].id in live
    {
      ghost var before := View();
      ghost var i := 0;
      while idle != [] && idle[0].id !in live
        invariant 0 <= i <= |before.f.idle| && idle == before.f.idle[i..] && total == before.f.total - i
        invariant forall k :: 0 <= k < i ==> before.f.idle[k].id !in live
        invariant at == before.at - ToSet(WorkerIds(before.f.idle[..i]))
        invariant View() == before.(f := before.f.(idle := idle, total := total), at := at)
        decreases |idle|
      {
        OneDropped(before.at, before.f.idle, i);
        DropFirst();
        i := i + 1;
      }
      DeadPrefixIs(before.f.idle, before.live, i);
    }

    /** From the top of the `while True` loop in _acquire to an answer or to the wait. */
    method TakeOrPark(call: nat) returns (answer: Answer)
      modifies this
      ensures View() == LoopTop(cfg, old(View()), call).next && answer == LoopTop(cfg, old(View()), call).answer
    {
      if stopped {
        return ShuttingDown;
      }
      DropDeadOnes();
      if idle != [] {
        var worker := idle[0];
        idle := idle[1..];
        at := at[worker.id := Out(call)];
        return Got(worker);
      }
      ParkHere(call);
      return Waits;
    }

    method Enter(call: nat) returns (answer: Answer)
      requires Can(AcquireEnter(call))
      modifies this
      ensures View() == Step(cfg, old(View()), AcquireEnter(call)) && Valid()
      ensures Some(answer) == AnswerOf(cfg, old(View()), AcquireEnter(call))
    {
      StepKeepsInv(cfg, View(), AcquireEnter(call));
      answer := TakeOrPark(call);
    }

    /** From the end of the wait to an answer or to the next wait. */
    method LookAgain(index: nat) returns (answer: Answer)
      requires index < |notified|
      modifies this
      ensures View() == Wake(cfg, old(View()), index).next && answer == Wake(cfg, old(View()), index).answer
    {
      var call := notified[index].call;
      waiting := waiting - 1;
      notified := RemoveAt(notified, index);
      if idle == [] && pendingGrows == 0 && spawnError.Some? {
        return SpawnError(spawnError.value);
      }
      answer := TakeOrPark(call);
    }

    /** A woken request holds the lock again. */
    method Resume(index: nat) returns (answer: Answer)
      requires Can(AcquireResume(index))
      modifies this
      ensures View() == Step(cfg, old(View()), AcquireResume(index)) && Valid()
      ensures Some(answer) == AnswerOf(cfg, old(View()), AcquireResume(index))
    {
      WakeKeeps(cfg, View(), index);
      answer := LookAgain(index);
    }

    // ---- release ----

    /** The decrement that follows a kill. */
    method CountOne(worker: nat)
      modifies this`total, this`at
      ensures View() == Uncount(old(View()), worker)
    {
      total := total - 1;
      at := at - {worker};
    }

    method CountBack(worker: nat, t: real) returns (spawns: bool)
      requires t == now && lock.Free?
      modifies this`total, this`at, this`lastReleaseAt, this`lock
      ensures View() == CountRelease(cfg, old(View()), worker) && spawns == lock.Replenishing?
    {
      CountOne(worker);
      lastReleaseAt := t;
      var belowMin := total < cfg.minWorkers;
      var queuedDemand := waiting > 0 && total < cfg.maxWorkers;
      spawns := (belowMin || queuedDemand) && !stopped;
      if spawns { lock := Replenishing; }
    }

    /** release() with the lock just taken, after its kill: does it go on to spawn? */
    method CountReleased(worker: nat, t: real) returns (spawns: bool)
      requires Can(ReleaseCounts(worker)) && t == now
      modifies this
      ensures View() == Step(cfg, old(View()), ReleaseCounts(worker)) && Valid() && spawns == lock.Replenishing?
    {
      StepKeepsInv(cfg, View(), ReleaseCounts(worker));
      spawns := CountBack(worker, t);
    }

    // ---- the sweep ----

    method SelectKills(t: real)
      requires t == now
      modifies this`idle, this`sweep, this`at
      ensures View() == Select(cfg, old(View()))
    {
      var draining := cfg.scaleToZero > 0.0 && total == |idle| && t - lastReleaseAt > cfg.scaleToZero;
      var allowed := if draining then |idle| else Max(0, |idle| - cfg.minWorkers);
      var kills, survivors := SweepPass(idle, allowed, draining, t, cfg.idleTimeout);
      idle := survivors;
      sweep := NextKill(WorkerIds(kills));
      at := Relabel(at, WorkerIds(kills), Swept);
    }

    /** The sweep's critical section: one pass over the queue, filling its kill list. */
    method SweepOnce(t: real)
      requires Can(SweepSelects) && t == now
      modifies this
      ensures View() == Step(cfg, old(View()), SweepSelects) && Valid()
    {
      StepKeepsInv(cfg, View(), SweepSelects);
      SelectKills(t);
    }

    method NextSwept(queue: seq<nat>)
      modifies this`sweep
      ensures View() == old(View()).(sweep := NextKill(queue))
    {
      sweep := NextKill(queue);
    }

    /** The sweep's decrement for the worker it has just killed. */
    method CountSwept()
      requires Can(SweepCounts)
      modifies this
      ensures View() == Step(cfg, old(View()), SweepCounts) && Valid()
    {
      StepKeepsInv(cfg, View(), SweepCounts);
      CountOne(sweep.queue[0]);
      NextSwept(sweep.queue[1..]);
    }

    // ---- stop ----

    method CancelSweep()
      modifies this`stopped, this`at, this`sweep, this`stop
      ensures View() == BeginStop(old(View()))
    {
      stopped := true;
      at := Relabel(at, if sweep.SweepKilling? then sweep.queue else [], Abandoned);
      sweep := NoSweep;
      stop := CancellingSweep;
    }

    /** stop() up to its first await: no more spawns, and the scale-down task is cancelled. */
    method BeginToStop()
      requires Can(StopBegins)
      modifies this
      ensures View() == Step(cfg, old(View()), StopBegins) && Valid()
    {
      StepKeepsInv(cfg, View(), StopBegins);
      CancelSweep();
    }

    method Empty()
      modifies this`idle, this`at, this`stop, this`closed
      ensures View() == Emptied(old(View()))
    {
      var doomed := WorkerIds(idle);
      idle := [];
      at := Relabel(at, doomed, Doomed);
      stop := NextDoomed(doomed);
      closed := true;
    }

    method TakeOver()
      modifies this
      ensures View() == Close(old(View()))
    {
      Empty();
      NotifyAll();
    }

    /** stop()'s critical section: the queue is taken over and every waiter is woken. */
    method CloseQueue()
      requires Can(StopCloses)
      modifies this
      ensures View() == Step(cfg, old(View()), StopCloses) && Valid()
    {
      StepKeepsInv(cfg, View(), StopCloses);
      TakeOver();
    }

    method NextToKill(queue: seq<nat>)
      modifies this`stop
      ensures View() == old(View()).(stop := NextDoomed(queue))
    {
      stop := NextDoomed(queue);
    }

    method CountDoomed()
      requires Can(StopCounts)
      modifies this
      ensures View() == Step(cfg, old(View()), StopCounts) && Valid()
    {
      StepKeepsInv(cfg, View(), StopCounts);
      CountOne(stop.queue[0]);
      NextToKill(stop.queue[1..]);
    }

    // ---- stats ----

    /** The liveness part of stats(): healthy exactly when every idle worker is alive. */
    method Health() returns (r: Stats)
      requires Valid()
      ensures r.total == total && r.idle == |idle| && r.busy == total - |idle|
      ensures r.idleAlive == |AlivePlaces(idle, live)|
      ensures r.healthy <==> forall i :: 0 <= i < |idle| ==> idle[i].id in live
    {
      var alive := 0;
      for i := 0 to |idle|
        invariant alive == AliveCount(idle[..i], live)
      {
        assert idle[..i + 1][..i] == idle[..i];
        if idle[i].id in live { alive := alive + 1; }
      }
      assert idle[..|idle|] == idle;
      AliveCountMeans(idle, live);
      r := Stats(total, |idle|, alive, total - |idle|, alive == |idle|);
    }
  }
}

/** A concrete run of the whole daemon in which a late job outlives the shutdown. */
module DaemonScenarios {
  import opened Wrappers
  import opened Runner
  import Jobs
  import opened IdleQueue
  import opened PoolModel
  import opened PoolSteps
  import opened Scenarios
  import opened Daemon

  const CONF := Settings(TWO_WORKERS, 3600.0, 500)

  predicate Hop(s: System, e: Event, t: System) {
    May(CONF, s, e) && Next(CONF, s, e) == t
  }

  lemma {:induction false} Hops(events: seq<Event>, states: nat -> System, k: nat)
    requires k <= |events| && forall i: nat :: i < |events| ==> Hop(states(i), events[i], states(i + 1))
    ensures Happens(CONF, states(k), events[k..]) && Then(CONF, states(k), events[k..]) == states(|events|)
    decreases |events| - k
  {
    if k < |events| {
      assert Hop(states(k), events[k], states(k + 1));
      assert events[k..][1..] == events[k + 1..];
      Hops(events, states, k + 1);
    }
  }

  /** Job 0 runs worker 0 when run_daemon shuts down and the web server's cleanup raises.
      While jobs.shutdown() waits for job 0, a request that is still being handled submits
      job 1, which takes worker 1. */
  function LateSubmitRun(t0: real): seq<Event> {
    [Background(StartSpawned), Background(StartSpawned), Submit("first", 60.0, t0), FirstStep(0), Ask(0, t0),
     TearDown(false, true), CleanupEnds(true), RunEnds(0, RunCancelled), Submit("late", 60.0, t0), FirstStep(1),
     Ask(1, t0), Background(ReleaseKills(0)), Background(ReleaseCounts(0)), Background(SpawnSucceeds),
     Settles(0, ReleaseDone, t0), ShutdownEnds(false), Background(StopSnapshots), Background(StopCloses),
     Background(StopKills), Background(StopCounts)]
  }

  function FirstJob(t0: real): Job { Jobs.NewJob(0, "first", 60.0, t0) }

  function LateJob(t0: real): Job { Jobs.NewJob(1, "late", 60.0, t0) }

  /** The pool of the run; `idle`, `live` and `at` are what moves. */
  function PoolOf(t0: real, idle: seq<Worker>, live: set<nat>, at: map<nat, Place>): State {
    State(Fields(idle, 2, 0, 0, None, t0, false), live, at, 2, Free, 0, [], [], [], Sleeping, NotStopping, false,
          [Spawned, Spawned], t0)
  }

  /** The pool once it has spawned a replacement. */
  function Replaced(t0: real, idle: seq<Worker>, live: set<nat>, at: map<nat, Place>): State {
    var s := PoolOf(t0, idle, live, at);
    s.(next := 3, log := [Spawned, Spawned, Spawned])
  }

  function StoppingOf(t0: real, idle: seq<Worker>, live: set<nat>, at: map<nat, Place>, stop: Stop): State {
    var s := Replaced(t0, idle, live, at);
    s.(f := s.f.(stopped := true), sweep := NoSweep, stop := stop)
  }

  function PoolAt(t0: real, i: nat): State {
    var w0, w1, w2 := Worker(0, t0), Worker(1, t0), Worker(2, t0);
    var counted := PoolOf(t0, [], {1}, map[1 := Out(1)]);
    if i == 0 then Initial(TWO_WORKERS, t0)
    else if i == 1 then OneAt(t0, Idle, {0}).(lock := Starting(1), sweep := NoSweep)
    else if i <= 4 then PoolOf(t0, [w0, w1], {0, 1}, map[0 := Idle, 1 := Idle])
    else if i <= 7 then PoolOf(t0, [w1], {0, 1}, map[0 := Out(0), 1 := Idle])
    else if i <= 10 then PoolOf(t0, [w1], {0, 1}, map[0 := ReleaseQueued, 1 := Idle])
    else if i == 11 then PoolOf(t0, [], {0, 1}, map[0 := ReleaseQueued, 1 := Out(1)])
    else if i == 12 then PoolOf(t0, [], {1}, map[0 := ReleaseKilled, 1 := Out(1)])
    else if i == 13 then counted.(f := counted.f.(total := 1), lock := Replenishing)
    else if i <= 15 then Replaced(t0, [w2], {1, 2}, map[1 := Out(1), 2 := Idle])
    else if i == 16 then StoppingOf(t0, [w2], {1, 2}, map[1 := Out(1), 2 := Idle], CancellingSweep)
    else if i == 17 then StoppingOf(t0, [w2], {1, 2}, map[1 := Out(1), 2 := Idle], Draining({}))
    else if i == 18 then StoppingOf(t0, [], {1, 2}, map[1 := Out(1), 2 := Doomed],
                                     StopKilling([2], false)).(closed := true)
    else if i == 19 then StoppingOf(t0, [], {1}, map[1 := Out(1), 2 := Doomed], StopKilling([2], true)).(closed := true)
    else EndPool(t0)
  }

  function EndPool(t0: real): State {
    var s := StoppingOf(t0, [], {1}, map[1 := Out(1)], Stopped).(closed := true);
    s.(f := s.f.(total := 1))
  }

  function JobsAt(t0: real, i: nat): seq<Job> {
    if i <= 2 then []
    else if i <= 8 then [FirstJob(t0)]
    else if i <= 14 then [FirstJob(t0), LateJob(t0)]
    else [Jobs.FinishCancelled(FirstJob(t0), t0), LateJob(t0)]
  }

  function FirstTask(i: nat): Task {
    Task(true,
         if i == 3 then Fresh else if i == 4 then Entering
         else if i <= 7 then Holding(0) else Retiring(0, RunCancelled))
  }

  function LateTask(i: nat): Task {
    Task(true, if i == 9 then Fresh else if i == 10 then Entering else Holding(1))
  }

  function TasksAt(i: nat): map<nat, Task> {
    if i <= 2 then map[]
    else if i <= 8 then map[0 := FirstTask(i)]
    else if i <= 14 then map[0 := FirstTask(i), 1 := LateTask(i)]
    else map[1 := LateTask(i)]
  }

  function LateSubmitState(t0: real, i: nat): System {
    System(PoolAt(t0, i), JobsAt(t0, i), TasksAt(i), if i <= 2 then 0 else if i <= 8 then 1 else 2,
           if i <= 4 then {} else if i <= 10 then {0} else {0, 1}, if i <= 7 then multiset{} else multiset{0}, {},
           if i <= 5 then Up else if i == 6 then Cleaning else if i <= 15 then Telling({0}) else StoppingPool)
  }

  predicate LateHop(t0: real, i: nat)
    requires i < 20
  {
    Hop(LateSubmitState(t0, i), LateSubmitRun(t0)[i], LateSubmitState(t0, i + 1))
  }

  lemma Hop0(t0: real) ensures LateHop(t0, 0) {}

  lemma PoolHop1(t0: real)
    ensures Link(TWO_WORKERS, PoolAt(t0, 1), StartSpawned, PoolAt(t0, 2))
  {
  }

  lemma Hop1(t0: real)
    ensures LateHop(t0, 1)
  {
    PoolHop1(t0);
  }

  lemma Hop2(t0: real) ensures LateHop(t0, 2) {}

  lemma Hop3(t0: real) ensures LateHop(t0, 3) {}

  lemma TakesFirst(s: State, call: nat)
    requires !s.f.stopped && s.f.idle != [] && s.f.idle[0].id in s.live
    ensures LoopTop(TWO_WORKERS, s, call)
         == Turn(s.(f := s.f.(idle := s.f.idle[1..]), at := s.at[s.f.idle[0].id := Out(call)]), Got(s.f.idle[0]))
  {
    assert s.f.idle[..0] == [] && s.f.idle[0..] == s.f.idle;
    assert s.at - ToSet(WorkerIds([])) == s.at;
  }

  lemma Takes0(t0: real)
    ensures LoopTop(TWO_WORKERS, PoolAt(t0, 4), 0) == Turn(PoolAt(t0, 5), Got(Worker(0, t0)))
  {
    TakesFirst(PoolAt(t0, 4), 0);
  }

  lemma Gets0(t0: real)
    ensures var s := LateSubmitState(t0, 4);
            Answered(s.(pool := PoolAt(t0, 5)), 0, Got(Worker(0, t0)), t0) == LateSubmitState(t0, 5)
  {
  }

  lemma AskGets(s: System, id: nat, pool: State, worker: Worker, t: System, t0: real)
    requires LoopTop(TWO_WORKERS, s.pool, id) == Turn(pool, Got(worker))
             && s.pool.lock.Free? && InPhase(s, id, Entering)
    requires Answered(s.(pool := pool), id, Got(worker), t0) == t
    ensures Hop(s, Ask(id, t0), t)
  {
  }

  lemma Comes0(t0: real)
    ensures var s := LateSubmitState(t0, 4);
            s.pool == PoolAt(t0, 4) && s.pool.lock.Free? && InPhase(s, 0, Entering)
  {
  }

  lemma Asks0(t0: real)
    ensures Hop(LateSubmitState(t0, 4), Ask(0, t0), LateSubmitState(t0, 5))
  {
    Comes0(t0);
    Takes0(t0);
    Gets0(t0);
    AskGets(LateSubmitState(t0, 4), 0, PoolAt(t0, 5), Worker(0, t0), LateSubmitState(t0, 5), t0);
  }

  lemma Hop4(t0: real)
    ensures LateHop(t0, 4)
  {
    Asks0(t0);
    assert LateSubmitRun(t0)[4] == Ask(0, t0);
  }

  lemma Hop5(t0: real) ensures LateHop(t0, 5) {}

  lemma Tells0(t0: real)
    ensures ClosingAfter(LateSubmitState(t0, 6), CleanupEnds(true)) == Telling({0})
    ensures PoolLabel(CleanupEnds(true), LateSubmitState(t0, 6)) == None
  {
    assert JobTasks(TasksAt(6)) == {0};
  }

  lemma TellingHop(s: System, told: set<nat>)
    requires s.closing.Cleaning? && ClosingAfter(s, CleanupEnds(true)) == Telling(told)
    requires PoolLabel(CleanupEnds(true), s) == None
    ensures Hop(s, CleanupEnds(true), s.(closing := Telling(told)))
  {
  }

  lemma Hop6(t0: real)
    ensures LateHop(t0, 6)
  {
    Tells0(t0);
    TellingHop(LateSubmitState(t0, 6), {0});
  }

  lemma PoolHop7(t0: real)
    ensures Link(TWO_WORKERS, PoolAt(t0, 7), ReleaseScheduled(0), PoolAt(t0, 8))
  {
  }

  predicate Retires(s: System, id: nat, w: nat, run: RunEnd, t: System) {
    InPhase(s, id, Holding(w))
    && t == s.(pool := t.pool, tasks := s.tasks[id := s.tasks[id].(phase := Retiring(w, run))],
               released := s.released + multiset{w})
  }

  lemma Retires0(t0: real)
    ensures Retires(LateSubmitState(t0, 7), 0, 0, RunCancelled, LateSubmitState(t0, 8))
  {
  }

  lemma RunEndsHop(s: System, id: nat, w: nat, run: RunEnd, t: System)
    requires Retires(s, id, w, run, t) && Link(TWO_WORKERS, s.pool, ReleaseScheduled(w), t.pool)
    ensures Hop(s, RunEnds(id, run), t)
  {
  }

  lemma Hop7(t0: real)
    ensures LateHop(t0, 7)
  {
    PoolHop7(t0);
    Retires0(t0);
    RunEndsHop(LateSubmitState(t0, 7), 0, 0, RunCancelled, LateSubmitState(t0, 8));
  }

  /** A running job is never reaped. */
  lemma RunningIsKept(t0: real)
    ensures Jobs.Reap([FirstJob(t0)], t0, 3600.0, 500) == [FirstJob(t0)]
  {
    var jobs := [FirstJob(t0)];
    assert jobs[1..] == [];
    assert Jobs.Unexpired(jobs, t0, 3600.0) == jobs;
    assert Jobs.TerminalJobs(jobs) == [];
  }

  lemma Hop8(t0: real)
    ensures LateHop(t0, 8)
  {
    RunningIsKept(t0);
  }

  lemma Hop9(t0: real) ensures LateHop(t0, 9) {}

  lemma Takes1(t0: real)
    ensures LoopTop(TWO_WORKERS, PoolAt(t0, 10), 1) == Turn(PoolAt(t0, 11), Got(Worker(1, t0)))
  {
    TakesFirst(PoolAt(t0, 10), 1);
  }

  lemma Gets1(t0: real)
    ensures var s := LateSubmitState(t0, 10);
            Answered(s.(pool := PoolAt(t0, 11)), 1, Got(Worker(1, t0)), t0) == LateSubmitState(t0, 11)
  {
  }

  lemma Comes1(t0: real)
    ensures var s := LateSubmitState(t0, 10);
            s.pool == PoolAt(t0, 10) && s.pool.lock.Free? && InPhase(s, 1, Entering)
  {
  }

  lemma Asks1(t0: real)
    ensures Hop(LateSubmitState(t0, 10), Ask(1, t0), LateSubmitState(t0, 11))
  {
    Comes1(t0);
    Takes1(t0);
    Gets1(t0);
    AskGets(LateSubmitState(t0, 10), 1, PoolAt(t0, 11), Worker(1, t0), LateSubmitState(t0, 11), t0);
  }

  lemma Hop10(t0: real)
    ensures LateHop(t0, 10)
  {
    Asks1(t0);
    assert LateSubmitRun(t0)[10] == Ask(1, t0);
  }

  lemma Hop11(t0: real) ensures LateHop(t0, 11) {}

  lemma PoolHop12(t0: real)
    ensures Link(TWO_WORKERS, PoolAt(t0, 12), ReleaseCounts(0), PoolAt(t0, 13))
  {
  }

  lemma Hop12(t0: real)
    ensures LateHop(t0, 12)
  {
    PoolHop12(t0);
  }

  lemma Hop13(t0: real) ensures LateHop(t0, 13) {}

  lemma FirstJobEnds(t0: real)
    ensures EndTask(LateSubmitState(t0, 14), 0, Cancelled, t0) == LateSubmitState(t0, 15)
  {
    assert LateSubmitState(t0, 14).tasks - {0} == LateSubmitState(t0, 15).tasks;
  }

  lemma Hop14(t0: real)
    ensures LateHop(t0, 14)
  {
    FirstJobEnds(t0);
  }

  lemma PoolHop15(t0: real)
    ensures Link(TWO_WORKERS, PoolAt(t0, 15), StopBegins, PoolAt(t0, 16))
  {
    var at: map<nat, Place> := map[1 := Out(1), 2 := Idle];
    assert Relabel(at, [], Abandoned) == at;
  }

  lemma Hop15(t0: real)
    ensures LateHop(t0, 15)
  {
    PoolHop15(t0);
  }

  lemma NobodyReleasing()
    ensures var at: map<nat, Place> := map[1 := Out(1), 2 := Idle]; (set w | w in at && Releasing(at, w)) == {}
  {
  }

  lemma PoolHop16(t0: real)
    ensures Link(TWO_WORKERS, PoolAt(t0, 16), StopSnapshots, PoolAt(t0, 17))
  {
    NobodyReleasing();
  }

  lemma Hop16(t0: real)
    ensures LateHop(t0, 16)
  {
    PoolHop16(t0);
  }

  lemma PoolHop17(t0: real)
    ensures Link(TWO_WORKERS, PoolAt(t0, 17), StopCloses, PoolAt(t0, 18))
  {
    assert WorkerIds([Worker(2, t0)]) == [2];
    assert Relabel(map[1 := Out(1), 2 := Idle], [2], Doomed) == map[1 := Out(1), 2 := Doomed];
  }

  lemma Hop17(t0: real)
    ensures LateHop(t0, 17)
  {
    PoolHop17(t0);
  }

  lemma PoolHop18(t0: real)
    ensures Link(TWO_WORKERS, PoolAt(t0, 18), StopKills, PoolAt(t0, 19))
  {
  }

  lemma Hop18(t0: real)
    ensures LateHop(t0, 18)
  {
    PoolHop18(t0);
  }

  lemma PoolHop19(t0: real)
    ensures Link(TWO_WORKERS, PoolAt(t0, 19), StopCounts, PoolAt(t0, 20))
  {
    assert [2][1..] == [];
  }

  lemma Hop19(t0: real)
    ensures LateHop(t0, 19)
  {
    PoolHop19(t0);
  }

  lemma LateHops(t0: real, i: nat)
    requires i < 20
    ensures LateHop(t0, i)
  {
    match i
    case 0 => Hop0(t0);
    case 1 => Hop1(t0);
    case 2 => Hop2(t0);
    case 3 => Hop3(t0);
    case 4 => Hop4(t0);
    case 5 => Hop5(t0);
    case 6 => Hop6(t0);
    case 7 => Hop7(t0);
    case 8 => Hop8(t0);
    case 9 => Hop9(t0);
    case 10 => Hop10(t0);
    case 11 => Hop11(t0);
    case 12 => Hop12(t0);
    case 13 => Hop13(t0);
    case 14 => Hop14(t0);
    case 15 => Hop15(t0);
    case 16 => Hop16(t0);
    case 17 => Hop17(t0);
    case 18 => Hop18(t0);
    case _ => Hop19(t0);
  }

  lemma Starts(t0: real)
    ensures LateSubmitState(t0, 0) == Initially(CONF, t0)
  {
  }

  lemma Ends(t0: real)
    ensures var t := LateSubmitState(t0, 20);
            && t.pool.stop.Stopped? && t.pool.live == {1} && t.pool.f.total == 1
            && InPhase(t, 1, Holding(1)) && t.jobs == [Jobs.FinishCancelled(FirstJob(t0), t0), LateJob(t0)]
  {
  }

  /** jobs.shutdown() waits for job 0 and returns without job 1, and stop() ends with job
      1's worker alive, counted and out. */
  lemma LateSubmitOutlivesShutdown(t0: real)
    ensures Happens(CONF, Initially(CONF, t0), LateSubmitRun(t0))
    ensures var t := Then(CONF, Initially(CONF, t0), LateSubmitRun(t0));
            && t.pool.stop.Stopped? && t.pool.live == {1} && t.pool.f.total == 1
            && InPhase(t, 1, Holding(1)) && t.jobs == [Jobs.FinishCancelled(FirstJob(t0), t0), LateJob(t0)]
  {
    var run := LateSubmitRun(t0);
    forall i: nat | i < |run| ensures Hop(LateSubmitState(t0, i), run[i], LateSubmitState(t0, i + 1)) {
      LateHops(t0, i);
      assert LateHop(t0, i);
    }
    assert run[0..] == run;
    Starts(t0);
    Hops(run, (i: nat) => LateSubmitState(t0, i), 0);
    Ends(t0);
  }
}

/** Concrete runs from start-up in which the pool departs from its own comments. */
module Scenarios {
  import opened Wrappers
  import opened IdleQueue
  import opened PoolModel
  import opened PoolSteps
  import opened ReleaseLaw
  import opened WakeUps

  /** min_workers 1, max_workers 1, drain after one second. */
  const ONE_WORKER := Config(1, 1, 60.0, 1.0)

  /** One worker in the given place, nobody parked, the lock free. */
  function OneAt(t0: real, place: Place, live: set<nat>): State {
    State(Fields(if place.Idle? then [Worker(0, t0)] else [], 1, 0, 0, None, t0, false), live, map[0 := place], 1,
          Free, 0, [], [], [], Sleeping, NotStopping, false, [Spawned], t0)
  }

  // ---- a failed replenish with two waiters ----

  function FailedReplenishRun(): seq<Label> {
    [StartSpawned, AcquireEnter(1), AcquireEnter(2), AcquireEnter(3), ReleaseScheduled(0), ReleaseKills(0),
     ReleaseCounts(0), SpawnFails("spawn failed"), AcquireResume(0)]
  }

  function FailedReplenishState(t0: real, i: nat): State {
    var out := OneAt(t0, Out(1), {0});
    var two := out.(parked := [Ticket(2, 1), Ticket(3, 1)], f := out.f.(waiting := 2));
    var spawning := two.(live := {}, at := map[], lock := Replenishing, f := two.f.(total := 0));
    var failed := spawning.(lock := Free, f := spawning.f.(spawnError := Some("spawn failed")),
                            log := [Spawned, SpawnFailed("spawn failed")],
                            parked := [Ticket(3, 1)], notified := [Ticket(2, 1)]);
    match i
    case 0 => Initial(ONE_WORKER, t0)
    case 1 => OneAt(t0, Idle, {0})
    case 2 => out
    case 3 => out.(parked := [Ticket(2, 1)], f := out.f.(waiting := 1))
    case 4 => two
    case 5 => two.(at := map[0 := ReleaseQueued])
    case 6 => two.(live := {}, at := map[0 := ReleaseKilled])
    case 7 => spawning
    case 8 => failed
    case _ => failed.(notified := [], f := failed.f.(waiting := 1))
  }

  predicate ReplenishLink(t0: real, i: nat)
    requires i < 9
  {
    Link(ONE_WORKER, FailedReplenishState(t0, i), FailedReplenishRun()[i], FailedReplenishState(t0, i + 1))
  }

  lemma ReplenishLinks0(t0: real) ensures ReplenishLink(t0, 0) {}
  lemma ReplenishLinks1(t0: real) ensures ReplenishLink(t0, 1) {}
  lemma ReplenishLinks2(t0: real) ensures ReplenishLink(t0, 2) {}
  lemma ReplenishLinks3(t0: real) ensures ReplenishLink(t0, 3) {}
  lemma ReplenishLinks4(t0: real) ensures ReplenishLink(t0, 4) && ReplenishLink(t0, 5) && ReplenishLink(t0, 6) {}
  lemma ReplenishLinks5(t0: real) ensures ReplenishLink(t0, 7) && ReplenishLink(t0, 8) {}

  lemma ReplenishLinks(t0: real, i: nat)
    requires i < 9
    ensures ReplenishLink(t0, i)
  {
    if i < 1 { ReplenishLinks0(t0); }
    else if i < 2 { ReplenishLinks1(t0); }
    else if i < 3 { ReplenishLinks2(t0); }
    else if i < 4 { ReplenishLinks3(t0); }
    else if i < 7 { ReplenishLinks4(t0); }
    else { ReplenishLinks5(t0); }
  }

  lemma FailedReplenishRuns(t0: real)
    ensures Leads(ONE_WORKER, FailedReplenishState(t0, 0), FailedReplenishRun(), FailedReplenishState(t0, 9))
  {
    var run := FailedReplenishRun();
    forall i: nat | i < |run|
      ensures Link(ONE_WORKER, FailedReplenishState(t0, i), run[i], FailedReplenishState(t0, i + 1)) {
      ReplenishLinks(t0, i);
    }
    assert run[0..] == run;
    Chain(ONE_WORKER, run, (i: nat) => FailedReplenishState(t0, i), 0);
  }

  lemma FailedReplenishEnds(t0: real)
    ensures FailedReplenishState(t0, 0) == Initial(ONE_WORKER, t0)
    ensures var t := FailedReplenishState(t0, 9);
            Stranded(t) && t.parked == [Ticket(3, 1)] && t.f.total == 0 < ONE_WORKER.maxWorkers
  {
  }

  /** A failed replenish tells one of two waiters; the other waits on an empty pool that
      has room for a worker, with nothing under way. */
  lemma FailedReplenishStrands(t0: real)
    ensures exists t :: Leads(ONE_WORKER, Initial(ONE_WORKER, t0), FailedReplenishRun(), t)
                        && Stranded(t) && t.parked == [Ticket(3, 1)] && t.f.total == 0 < ONE_WORKER.maxWorkers
  {
    FailedReplenishRuns(t0);
    FailedReplenishEnds(t0);
  }

  // ---- a request that arrives behind a sweep ----

  function SweptUnderRequestRun(t0: real): seq<Label> {
    [StartSpawned, Tick(t0 + 2.0), SweepSelects, AcquireEnter(1), SweepKills, SweepCounts]
  }

  function SweptUnderRequestState(t0: real, i: nat): State {
    var swept := OneAt(t0, Swept, {0}).(now := t0 + 2.0, sweep := SweepKilling([0], false));
    var parked := swept.(parked := [Ticket(1, 1)], f := swept.f.(waiting := 1));
    match i
    case 0 => Initial(ONE_WORKER, t0)
    case 1 => OneAt(t0, Idle, {0})
    case 2 => OneAt(t0, Idle, {0}).(now := t0 + 2.0)
    case 3 => swept
    case 4 => parked
    case 5 => parked.(live := {}, sweep := SweepKilling([0], true))
    case _ => parked.(live := {}, sweep := Sleeping, at := map[], f := parked.f.(total := 0))
  }

  predicate SweptLink(t0: real, i: nat)
    requires i < 6
  {
    Link(ONE_WORKER, SweptUnderRequestState(t0, i), SweptUnderRequestRun(t0)[i], SweptUnderRequestState(t0, i + 1))
  }

  lemma SweptLinks1(t0: real) ensures SweptLink(t0, 0) && SweptLink(t0, 1) {}
  lemma SweptLinks2(t0: real)
    ensures SweptLink(t0, 2)
  {
    assert [Worker(0, t0)][1..] == [];
    assert Condemned([Worker(0, t0)], 1, true, t0 + 2.0, 60.0) == [Worker(0, t0)];
    SweepTakesPrefix([Worker(0, t0)], 1, true, t0 + 2.0, 60.0);
    assert WorkerIds([Worker(0, t0)]) == [0];
    assert Relabel(map[0 := Idle], [0], Swept) == map[0 := Swept];
  }
  lemma SweptLinks3(t0: real) ensures SweptLink(t0, 3) {}
  lemma SweptLinks4(t0: real) ensures SweptLink(t0, 4) && SweptLink(t0, 5) {}

  lemma SweptLinks(t0: real, i: nat)
    requires i < 6
    ensures SweptLink(t0, i)
  {
    if i < 2 { SweptLinks1(t0); } else if i < 3 { SweptLinks2(t0); }
    else if i < 4 { SweptLinks3(t0); } else { SweptLinks4(t0); }
  }

  /** The sweep's decrement tells nobody, so a request that parked behind it stays. */
  lemma SweptUnderRequestStrands(t0: real)
    ensures Leads(ONE_WORKER, Initial(ONE_WORKER, t0), SweptUnderRequestRun(t0), SweptUnderRequestState(t0, 6))
    ensures var t := SweptUnderRequestState(t0, 6);
            Stranded(t) && t.parked == [Ticket(1, 1)] && t.f.total == 0 < ONE_WORKER.maxWorkers
  {
    var run := SweptUnderRequestRun(t0);
    forall i: nat | i < |run|
      ensures Link(ONE_WORKER, SweptUnderRequestState(t0, i), run[i], SweptUnderRequestState(t0, i + 1)) {
      SweptLinks(t0, i);
      assert SweptLink(t0, i);
    }
    assert run[0..] == run;
    Chain(ONE_WORKER, run, (i: nat) => SweptUnderRequestState(t0, i), 0);
  }

  // ---- a sweep that gets the lock before the request its spawn was for ----

  /** min_workers 0, max_workers 1, drain after one second. */
  const ON_DEMAND := Config(0, 1, 60.0, 1.0)

  function SweptBeforeResumeRun(t0: real): seq<Label> {
    [AcquireEnter(1), GrowBegins, Tick(t0 + 2.0), SpawnSucceeds, SweepSelects, AcquireResume(0)]
  }

  function SweptBeforeResumeState(t0: real, i: nat): State {
    var empty := Initial(ON_DEMAND, t0);
    var asked := empty.(f := empty.f.(waiting := 1, pendingGrows := 1), grows := 1, parked := [Ticket(1, 0)]);
    var growing := asked.(grows := 0, lock := Growing);
    var grown := State(Fields([Worker(0, t0 + 2.0)], 1, 1, 0, None, t0, false), {0}, map[0 := Idle], 1,
                       Free, 0, [], [Ticket(1, 0)], [], Sleeping, NotStopping, false, [Spawned], t0 + 2.0);
    var swept := grown.(f := grown.f.(idle := []), at := map[0 := Swept], sweep := SweepKilling([0], false));
    match i
    case 0 => empty
    case 1 => asked
    case 2 => growing
    case 3 => growing.(now := t0 + 2.0)
    case 4 => grown
    case 5 => swept
    case _ => swept.(notified := [], parked := [Ticket(1, 1)])
  }

  predicate ResumeLink(t0: real, i: nat)
    requires i < 6
  {
    Link(ON_DEMAND, SweptBeforeResumeState(t0, i), SweptBeforeResumeRun(t0)[i], SweptBeforeResumeState(t0, i + 1))
  }

  lemma ResumeLinks0(t0: real)
    ensures ResumeLink(t0, 0)
  {
    LoopTopOnEmpty(ON_DEMAND, Initial(ON_DEMAND, t0), 1);
  }

  lemma ResumeLinks1(t0: real) ensures ResumeLink(t0, 1) && ResumeLink(t0, 2) {}
  lemma ResumeLinks2(t0: real) ensures ResumeLink(t0, 3) {}
  lemma ResumeLinks3(t0: real)
    ensures ResumeLink(t0, 4)
  {
    SweepsOne(Worker(0, t0 + 2.0), t0 + 2.0);
    assert Relabel(map[0 := Idle], [0], Swept) == map[0 := Swept];
  }
  lemma ResumeLinks4(t0: real) ensures ResumeLink(t0, 5) {}

  /** A drain of a single idle worker takes it. */
  lemma SweepsOne(w: Worker, now: real)
    ensures Condemned([w], 1, true, now, 60.0) == [w] && IdleQueue.Survivors([w], 1, true, now, 60.0) == []
    ensures WorkerIds([w]) == [w.id]
  {
    assert [w][1..] == [];
  }

  lemma ResumeLinks(t0: real, i: nat)
    requires i < 6
    ensures ResumeLink(t0, i)
  {
    if i < 1 { ResumeLinks0(t0); }
    else if i < 3 { ResumeLinks1(t0); }
    else if i < 4 { ResumeLinks2(t0); }
    else if i < 5 { ResumeLinks3(t0); }
    else { ResumeLinks4(t0); }
  }

  lemma SweptBeforeResumeRuns(t0: real)
    ensures Leads(ON_DEMAND, Initial(ON_DEMAND, t0), SweptBeforeResumeRun(t0), SweptBeforeResumeState(t0, 6))
  {
    var run := SweptBeforeResumeRun(t0);
    forall i: nat | i < |run|
      ensures Link(ON_DEMAND, SweptBeforeResumeState(t0, i), run[i], SweptBeforeResumeState(t0, i + 1)) {
      ResumeLinks(t0, i);
      assert ResumeLink(t0, i);
    }
    assert run[0..] == run;
    Chain(ON_DEMAND, run, (i: nat) => SweptBeforeResumeState(t0, i), 0);
  }

  /** No spawn fails and the arrival strands nobody: the sweep takes the worker that was
      spawned for the request before the request gets to look, and the request parks
      again on a full pool that is about to be empty. */
  lemma SweptBeforeResumeStrands(t0: real)
    ensures Leads(ON_DEMAND, Initial(ON_DEMAND, t0), SweptBeforeResumeRun(t0), SweptBeforeResumeState(t0, 6))
    ensures !Stranded(SweptBeforeResumeState(t0, 5)) && Stranded(SweptBeforeResumeState(t0, 6))
  {
    SweptBeforeResumeRuns(t0);
  }

  // ---- stop() during a sweep ----

  /** min_workers 2, max_workers 2, drain after one second. */
  const TWO_WORKERS := Config(2, 2, 60.0, 1.0)

  /** The sweep has signalled worker 0 and waits for it to go when stop() cancels it. */
  function StopMidSweepRun(t0: real): seq<Label> {
    [StartSpawned, StartSpawned, Tick(t0 + 2.0), SweepSelects, StopBegins, WorkerDies(0), StopSnapshots, StopCloses]
  }

  function TwoAt(t0: real, place: Place): State {
    State(Fields(if place.Idle? then [Worker(0, t0), Worker(1, t0)] else [], 2, 0, 0, None, t0, false), {0, 1},
          map[0 := place, 1 := place], 2, Free, 0, [], [], [], Sleeping, NotStopping, false, [Spawned, Spawned], t0)
  }

  function StopMidSweepState(t0: real, i: nat): State {
    var one := OneAt(t0, Idle, {0}).(lock := Starting(1), sweep := NoSweep);
    var swept := TwoAt(t0, Swept).(now := t0 + 2.0, sweep := SweepKilling([0, 1], false));
    var stopping := TwoAt(t0, Abandoned).(now := t0 + 2.0, sweep := NoSweep, stop := CancellingSweep,
                                           f := swept.f.(stopped := true));
    match i
    case 0 => Initial(TWO_WORKERS, t0)
    case 1 => one
    case 2 => TwoAt(t0, Idle)
    case 3 => TwoAt(t0, Idle).(now := t0 + 2.0)
    case 4 => swept
    case 5 => stopping
    case 6 => stopping.(live := {1})
    case 7 => stopping.(live := {1}, stop := Draining({}))
    case _ => stopping.(live := {1}, stop := Stopped, closed := true)
  }

  predicate StopLink(t0: real, i: nat)
    requires i < 8
  {
    Link(TWO_WORKERS, StopMidSweepState(t0, i), StopMidSweepRun(t0)[i], StopMidSweepState(t0, i + 1))
  }

  lemma StopLinks0(t0: real) ensures StopLink(t0, 0) {}
  lemma StopLinks1(t0: real) ensures StopLink(t0, 1) && StopLink(t0, 2) {}

  lemma SweepsTwo(t0: real, now: real)
    ensures var both := [Worker(0, t0), Worker(1, t0)];
            && Condemned(both, 2, true, now, 60.0) == both && IdleQueue.Survivors(both, 2, true, now, 60.0) == []
            && WorkerIds(both) == [0, 1]
  {
    SweepsOne(Worker(1, t0), now);
    assert [Worker(0, t0), Worker(1, t0)][1..] == [Worker(1, t0)];
  }

  lemma RelabelTwo(from: Place, to: Place)
    ensures Relabel(map[0 := from, 1 := from], [0, 1], to) == map[0 := to, 1 := to]
  {
  }

  lemma StopLinks2(t0: real)
    ensures StopLink(t0, 3)
  {
    SweepsTwo(t0, t0 + 2.0);
    RelabelTwo(Idle, Swept);
  }

  lemma StopLinks3(t0: real)
    ensures StopLink(t0, 4)
  {
    RelabelTwo(Swept, Abandoned);
  }

  lemma StopLinks4(t0: real)
    ensures StopLink(t0, 5) && StopLink(t0, 6)
  {
    assert {0, 1} - {0} == {1};
    var at: map<nat, Place> := map[0 := Abandoned, 1 := Abandoned];
    assert (set w | w in at && Releasing(at, w)) == {};
  }

  lemma StopLinks5(t0: real)
    ensures StopLink(t0, 7)
  {
    var at: map<nat, Place> := map[0 := Abandoned, 1 := Abandoned];
    assert WorkerIds([]) == [] && Relabel(at, [], Doomed) == at;
  }

  lemma StopLinks(t0: real, i: nat)
    requires i < 8
    ensures StopLink(t0, i)
  {
    if i < 1 { StopLinks0(t0); }
    else if i < 3 { StopLinks1(t0); }
    else if i < 4 { StopLinks2(t0); }
    else if i < 5 { StopLinks3(t0); }
    else if i < 7 { StopLinks4(t0); }
    else { StopLinks5(t0); }
  }

  /** stop() returns while worker 1, which the sweep had taken but not reached, is alive
      and still counted, and so is worker 0, which is dead. */
  lemma StopMidSweepLeavesWorker(t0: real)
    ensures Leads(TWO_WORKERS, Initial(TWO_WORKERS, t0), StopMidSweepRun(t0), StopMidSweepState(t0, 8))
    ensures var t := StopMidSweepState(t0, 8); t.stop.Stopped? && t.live == {1} && t.f.total == 2 && t.f.idle == []
  {
    var run := StopMidSweepRun(t0);
    forall i: nat | i < |run|
      ensures Link(TWO_WORKERS, StopMidSweepState(t0, i), run[i], StopMidSweepState(t0, i + 1)) {
      StopLinks(t0, i);
      assert StopLink(t0, i);
    }
    assert run[0..] == run;
    Chain(TWO_WORKERS, run, (i: nat) => StopMidSweepState(t0, i), 0);
  }
}

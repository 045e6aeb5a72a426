/** The pool comes to rest: whatever its tasks still have to do, one of them can go on, and
    they cannot go on for ever. */
module Progress {
  import opened IdleQueue
  import opened Ownership
  import opened PoolModel
  import opened PoolInvariant
  import opened PoolSteps
  import opened PoolSafety
  import opened WakeUps
  import opened Demand
  import L = PoolLaws

  /** A step that one of the pool's tasks, or a request that is already in the queues, takes
      towards its end. What comes from outside is not among them: time, deaths, arrivals,
      cancellations, the end of a caller's run, stop() and the next sweep. */
  predicate Finishes(l: Label) {
    l.StartSpawned? || l.AcquireResume? || l.CancelledLeaves? || l.GrowBegins? || l.SpawnSucceeds?
    || l.ReleaseKills? || l.ReleaseCounts? || l.SweepKills? || l.SweepCounts? || l.StopSnapshots?
    || l.StopCloses? || l.StopKills? || l.StopCounts?
  }

  /** Something is under way. */
  ghost predicate Unfinished(s: State) {
    || !s.lock.Free? || s.grows > 0 || s.notified != [] || s.leaving != [] || s.sweep.SweepKilling?
    || s.stop.CancellingSweep? || s.stop.Draining? || s.stop.StopKilling?
    || exists w :: Releasing(s.at, w)
  }

  /** While a spawn has the lock, the spawn can land. */
  lemma SpawnCanLand(cfg: Config, s: State)
    requires Capacity(cfg, s) && !s.lock.Free?
    ensures exists l :: Finishes(l) && Enabled(cfg, s, l)
  {
    if s.lock.Starting? {
      assert Finishes(StartSpawned) && Enabled(cfg, s, StartSpawned);
    } else {
      assert Finishes(SpawnSucceeds) && Enabled(cfg, s, SpawnSucceeds);
    }
  }

  lemma ReleaseCanGoOn(cfg: Config, s: State, w: nat)
    requires s.lock.Free? && Releasing(s.at, w)
    ensures exists l :: Finishes(l) && Enabled(cfg, s, l)
  {
    if s.at[w].ReleaseQueued? {
      assert Finishes(ReleaseKills(w)) && Enabled(cfg, s, ReleaseKills(w));
    } else {
      assert Finishes(ReleaseCounts(w)) && Enabled(cfg, s, ReleaseCounts(w));
    }
  }

  /** With the lock free, everyone who needs it can have it. */
  lemma RequestsCanGoOn(cfg: Config, s: State)
    requires s.lock.Free? && (s.notified != [] || s.leaving != [] || s.grows > 0)
    ensures exists l :: Finishes(l) && Enabled(cfg, s, l)
  {
    if s.notified != [] {
      assert Finishes(AcquireResume(0)) && Enabled(cfg, s, AcquireResume(0));
    } else if s.leaving != [] {
      assert Finishes(CancelledLeaves(0, true)) && Enabled(cfg, s, CancelledLeaves(0, true));
    } else {
      assert Finishes(GrowBegins) && Enabled(cfg, s, GrowBegins);
    }
  }

  lemma SweepCanGoOn(cfg: Config, s: State)
    requires KilledFirst(s) && s.lock.Free? && s.sweep.SweepKilling?
    ensures exists l :: Finishes(l) && Enabled(cfg, s, l)
  {
    var l := if s.sweep.killed then SweepCounts else SweepKills;
    assert Finishes(l) && Enabled(cfg, s, l);
  }

  /** stop() waits for nothing but releases, which can go on. */
  lemma StopCanGoOn(cfg: Config, s: State)
    requires KilledFirst(s) && s.lock.Free? && (s.stop.CancellingSweep? || s.stop.Draining? || s.stop.StopKilling?)
    ensures exists l :: Finishes(l) && Enabled(cfg, s, l)
  {
    match s.stop
    case CancellingSweep => assert Finishes(StopSnapshots) && Enabled(cfg, s, StopSnapshots);
    case StopKilling(_, killed) =>
      var l := if killed then StopCounts else StopKills;
      assert Finishes(l) && Enabled(cfg, s, l);
    case Draining(releases) =>
      if w :| w in releases && Releasing(s.at, w) {
        ReleaseCanGoOn(cfg, s, w);
      } else {
        assert Finishes(StopCloses) && Enabled(cfg, s, StopCloses);
      }
  }

  /** No deadlock: in every reachable state in which anything is under way, some task of the
      pool or some request can take its next step, with nothing from outside. */
  lemma NeverStuck(cfg: Config, s: State)
    requires Reachable(cfg, s) && Unfinished(s)
    ensures exists l :: Finishes(l) && Enabled(cfg, s, l)
  {
    ReachableInv(cfg, s);
    if !s.lock.Free? { SpawnCanLand(cfg, s); }
    else if s.notified != [] || s.leaving != [] || s.grows > 0 { RequestsCanGoOn(cfg, s); }
    else if s.sweep.SweepKilling? { SweepCanGoOn(cfg, s); }
    else if s.stop.CancellingSweep? || s.stop.Draining? || s.stop.StopKilling? { StopCanGoOn(cfg, s); }
    else {
      var w :| Releasing(s.at, w);
      ReleaseCanGoOn(cfg, s, w);
    }
  }

  // ---- and it ends ----

  /** The counted workers that stay counted as long as nothing comes from outside. */
  function Solid(s: State): set<nat> {
    set w | w in s.at && (s.at[w].Out? || s.at[w].Abandoned? || (s.at[w].Idle? && w in s.live))
  }

  function QueuedReleases(at: map<nat, Place>): set<nat> {
    set w | w in at && at[w].ReleaseQueued?
  }

  function KilledReleases(at: map<nat, Place>): set<nat> {
    set w | w in at && at[w].ReleaseKilled?
  }

  function Rest(queue: seq<nat>, killed: bool): int {
    2 * |queue| - if killed then 1 else 0
  }

  function SweepWork(s: State): int {
    if s.sweep.SweepKilling? then Rest(s.sweep.queue, s.sweep.killed) else 0
  }

  function StopWork(s: State): int {
    match s.stop
    case CancellingSweep => 2
    case Draining(_) => 1
    case StopKilling(queue, killed) => Rest(queue, killed)
    case _ => 0
  }

  function ReleaseWork(at: map<nat, Place>): int {
    3 * |QueuedReleases(at)| + 2 * |KilledReleases(at)|
  }

  /** An upper bound on the steps left. An open pool may still spawn up to its bound, and
      each spawn gives a parked request another look; a pool being stopped may not. */
  function Work(cfg: Config, s: State): int {
    3 * |s.notified| + 4 * |s.leaving| + ReleaseWork(s.at) + SweepWork(s) + StopWork(s)
    + if s.f.stopped then
        3 * |s.parked| + s.grows + (if s.lock.Free? then 0 else 4) + (if s.closed then 0 else 2 * |s.f.idle|)
      else
        2 * s.grows + (if s.lock.Free? then 0 else 1) + 4 * (Bound(cfg) - |Solid(s)|)
  }

  lemma SolidAreCounted(cfg: Config, s: State)
    requires Inv(cfg, s)
    ensures |Solid(s)| <= s.f.total <= Bound(cfg)
  {
    assert |s.at.Keys - Solid(s)| == |s.at.Keys| - |Solid(s)|;
  }

  lemma WorkIsNatural(cfg: Config, s: State)
    requires Inv(cfg, s)
    ensures Work(cfg, s) >= 0
  {
    SolidAreCounted(cfg, s);
  }

  /** The places that the measure looks at. */
  ghost predicate SamePlaces(s: State, t: State) {
    && Solid(s) == Solid(t) && QueuedReleases(s.at) == QueuedReleases(t.at)
    && KilledReleases(s.at) == KilledReleases(t.at)
  }

  lemma SpawnIsSolid(s: State, t: State)
    requires s.next !in s.at && t.at == s.at[s.next := Idle] && t.live == s.live + {s.next}
    ensures |Solid(t)| == |Solid(s)| + 1
    ensures QueuedReleases(t.at) == QueuedReleases(s.at) && KilledReleases(t.at) == KilledReleases(s.at)
  {
    assert Solid(t) == Solid(s) + {s.next} && s.next !in Solid(s);
  }

  /** What a spawn does to the queues and the counters. */
  lemma SpawnLeaves(cfg: Config, s: State, l: Label)
    requires Inv(cfg, s) && Enabled(cfg, s, l) && (l.StartSpawned? || l.SpawnSucceeds?)
    ensures var t := Step(cfg, s, l);
            && t.grows == s.grows && t.leaving == s.leaving && t.f.stopped == s.f.stopped && t.closed == s.closed
            && t.stop == s.stop && SweepWork(t) == SweepWork(s)
            && (l.SpawnSucceeds? ==> t.lock.Free?) && (s.f.stopped ==> l.SpawnSucceeds?)
  {
  }

  lemma WorkWhenSpawning(cfg: Config, s: State, l: Label)
    requires Inv(cfg, s) && Enabled(cfg, s, l) && (l.StartSpawned? || l.SpawnSucceeds?)
    ensures Work(cfg, Step(cfg, s, l)) < Work(cfg, s)
  {
    L.SpawnQueues(cfg, s, l);
    L.OneIsWoken(cfg, s, l);
    SpawnIsSolid(s, Step(cfg, s, l));
    SpawnLeaves(cfg, s, l);
  }

  lemma WorkWhenGrowing(cfg: Config, s: State)
    requires Inv(cfg, s) && Enabled(cfg, s, GrowBegins)
    ensures Work(cfg, Step(cfg, s, GrowBegins)) < Work(cfg, s)
  {
    assert SamePlaces(s, Step(cfg, s, GrowBegins));
  }

  lemma WorkWhenLeaving(cfg: Config, s: State, l: Label)
    requires Inv(cfg, s) && Enabled(cfg, s, l) && l.CancelledLeaves?
    ensures Work(cfg, Step(cfg, s, l)) < Work(cfg, s)
  {
    assert SamePlaces(s, Step(cfg, s, l));
  }

  lemma TurnKeepsPlaces(cfg: Config, s: State, call: nat)
    requires Custody(s) && !s.f.stopped
    ensures SamePlaces(s, LoopTop(cfg, s, call).next)
  {
    DropDeadPlaces(s);
    FrontIsIdle(s);
    TurnPlaces(cfg, s, call);
  }

  lemma TurnPlaces(cfg: Config, s: State, call: nat)
    requires !s.f.stopped
    requires var d := DropDead(s);
             d.f.idle != [] ==> d.f.idle[0].id in d.at && d.at[d.f.idle[0].id].Idle? && d.f.idle[0].id in d.live
    ensures SamePlaces(DropDead(s), LoopTop(cfg, s, call).next)
  {
    TurnAt(cfg, s, call);
    var d, t := DropDead(s), LoopTop(cfg, s, call).next;
    if d.f.idle != [] { TakenPlaces(d, d.f.idle[0].id, call, t); } else { NotTakenPlaces(d, t); }
  }

  lemma TurnAt(cfg: Config, s: State, call: nat)
    requires !s.f.stopped
    ensures var d, t := DropDead(s), LoopTop(cfg, s, call).next;
            t.live == d.live && t.at == if d.f.idle != [] then d.at[d.f.idle[0].id := Out(call)] else d.at
  {
  }

  lemma FrontIsIdle(s: State)
    requires Custody(s)
    ensures var d := DropDead(s);
            d.f.idle != [] ==> d.f.idle[0].id in d.at && d.at[d.f.idle[0].id].Idle? && d.f.idle[0].id in d.live
  {
    DropDeadCustody(s);
    var d := DropDead(s);
    if d.f.idle != [] { assert WorkerIds(d.f.idle)[0] == d.f.idle[0].id; }
  }

  /** A live idle worker and one that is out are equally solid. */
  lemma TakenPlaces(s: State, w: nat, call: nat, t: State)
    requires w in s.at && s.at[w].Idle? && w in s.live && t.at == s.at[w := Out(call)] && t.live == s.live
    ensures SamePlaces(s, t)
  {
  }

  lemma NotTakenPlaces(s: State, t: State)
    requires t.at == s.at && t.live == s.live
    ensures SamePlaces(s, t)
  {
  }

  lemma DropDeadPlaces(s: State)
    requires Custody(s)
    ensures SamePlaces(s, DropDead(s))
  {
    var d := DeadPrefix(s.f.idle, s.live);
    var ids := WorkerIds(s.f.idle);
    assert WorkerIds(s.f.idle[..d]) == ids[..d];
    forall w | w in ids[..d] ensures w in s.at && s.at[w].Idle? && w !in s.live {
      assert w in ids;
    }
  }

  lemma WorkWhenResuming(cfg: Config, s: State, i: nat)
    requires Inv(cfg, s) && Enabled(cfg, s, AcquireResume(i))
    ensures Work(cfg, Step(cfg, s, AcquireResume(i))) < Work(cfg, s)
  {
    var l := AcquireResume(i);
    L.AcquireAnswers(cfg, s, l);
    if Refuses(AnswerOf(cfg, s, l).value) {
      L.RefusalTouchesNothing(cfg, s, l);
      NotTakenPlaces(s, Step(cfg, s, l));
    } else {
      WokenKeeps(cfg, s, i);
      TurnKeepsPlaces(cfg, Woken(s, i), s.notified[i].call);
      LookingLeavesLess(cfg, s, i);
    }
  }

  lemma LookingLeavesLess(cfg: Config, s: State, i: nat)
    requires Inv(cfg, s) && Enabled(cfg, s, AcquireResume(i)) && !s.f.stopped
    requires SamePlaces(s, Step(cfg, s, AcquireResume(i)))
    ensures Work(cfg, Step(cfg, s, AcquireResume(i))) < Work(cfg, s)
  {
  }

  lemma KillingMovesRelease(s: State, t: State, w: nat)
    requires w in s.at && s.at[w].ReleaseQueued? && t.at == s.at[w := ReleaseKilled] && t.live == s.live - {w}
    ensures Solid(t) == Solid(s) && ReleaseWork(t.at) == ReleaseWork(s.at) - 1
  {
    assert QueuedReleases(t.at) == QueuedReleases(s.at) - {w};
    assert KilledReleases(t.at) == KilledReleases(s.at) + {w};
  }

  lemma CountingEndsRelease(s: State, t: State, w: nat)
    requires w in s.at && s.at[w].ReleaseKilled? && t.at == s.at - {w} && t.live == s.live
    ensures Solid(t) == Solid(s) && ReleaseWork(t.at) == ReleaseWork(s.at) - 2
  {
    assert QueuedReleases(t.at) == QueuedReleases(s.at);
    assert KilledReleases(t.at) == KilledReleases(s.at) - {w};
  }

  lemma WorkWhenReleaseKills(cfg: Config, s: State, w: nat)
    requires Inv(cfg, s) && Enabled(cfg, s, ReleaseKills(w))
    ensures Work(cfg, Step(cfg, s, ReleaseKills(w))) < Work(cfg, s)
  {
    KillingMovesRelease(s, Step(cfg, s, ReleaseKills(w)), w);
  }

  lemma WorkWhenReleaseCounts(cfg: Config, s: State, w: nat)
    requires Inv(cfg, s) && Enabled(cfg, s, ReleaseCounts(w))
    ensures Work(cfg, Step(cfg, s, ReleaseCounts(w))) < Work(cfg, s)
  {
    CountingEndsRelease(s, Step(cfg, s, ReleaseCounts(w)), w);
  }

  lemma WorkWhenSweeping(cfg: Config, s: State, l: Label)
    requires Inv(cfg, s) && Enabled(cfg, s, l) && (l.SweepKills? || l.SweepCounts?)
    ensures Work(cfg, Step(cfg, s, l)) < Work(cfg, s)
  {
    assert s.sweep.queue[0] in SweepQueue(s);
    assert SamePlaces(s, Step(cfg, s, l));
  }

  lemma WorkWhenStopping(cfg: Config, s: State, l: Label)
    requires Inv(cfg, s) && Enabled(cfg, s, l) && (l.StopSnapshots? || l.StopKills? || l.StopCounts?)
    ensures Work(cfg, Step(cfg, s, l)) < Work(cfg, s)
  {
    StopKeepsPlaces(cfg, s, l);
  }

  lemma StopKeepsPlaces(cfg: Config, s: State, l: Label)
    requires Inv(cfg, s) && Enabled(cfg, s, l) && (l.StopSnapshots? || l.StopKills? || l.StopCounts?)
    ensures SamePlaces(s, Step(cfg, s, l))
  {
    assert !l.StopSnapshots? ==> s.stop.queue[0] in StopQueue(s);
  }

  lemma WorkWhenClosing(cfg: Config, s: State)
    requires Inv(cfg, s) && Enabled(cfg, s, StopCloses)
    ensures Work(cfg, Step(cfg, s, StopCloses)) < Work(cfg, s)
  {
    var t := Step(cfg, s, StopCloses);
    assert QueuedReleases(t.at) == QueuedReleases(s.at) && KilledReleases(t.at) == KilledReleases(s.at);
  }

  /** Every step that finishes something leaves less to do. */
  lemma FinishingLeavesLess(cfg: Config, s: State, l: Label)
    requires Inv(cfg, s) && Enabled(cfg, s, l) && Finishes(l)
    ensures Work(cfg, Step(cfg, s, l)) < Work(cfg, s)
  {
    match l
    case StartSpawned => WorkWhenSpawning(cfg, s, l);
    case SpawnSucceeds => WorkWhenSpawning(cfg, s, l);
    case AcquireResume(i) => WorkWhenResuming(cfg, s, i);
    case CancelledLeaves(_, _) => WorkWhenLeaving(cfg, s, l);
    case GrowBegins => WorkWhenGrowing(cfg, s);
    case ReleaseKills(w) => WorkWhenReleaseKills(cfg, s, w);
    case ReleaseCounts(w) => WorkWhenReleaseCounts(cfg, s, w);
    case SweepKills => WorkWhenSweeping(cfg, s, l);
    case SweepCounts => WorkWhenSweeping(cfg, s, l);
    case StopCloses => WorkWhenClosing(cfg, s);
    case _ => WorkWhenStopping(cfg, s, l);
  }

  /** The pool's tasks and the requests in its queues cannot keep each other busy: as long
      as spawns succeed and nothing comes from outside, no run is longer than the work
      there was. */
  lemma {:induction false} RunsEnd(cfg: Config, s: State, labels: seq<Label>)
    requires Inv(cfg, s) && Runs(cfg, s, labels) && forall l :: l in labels ==> Finishes(l)
    ensures |labels| <= Work(cfg, s)
    decreases |labels|
  {
    WorkIsNatural(cfg, s);
    if labels != [] {
      FinishingLeavesLess(cfg, s, labels[0]);
      StepKeepsInv(cfg, s, labels[0]);
      RunsEnd(cfg, Step(cfg, s, labels[0]), labels[1..]);
    }
  }

  /** And it can always come to rest. */
  lemma {:induction false} ComesToRest(cfg: Config, s: State) returns (labels: seq<Label>)
    requires Reachable(cfg, s)
    ensures Runs(cfg, s, labels) && (forall l :: l in labels ==> Finishes(l))
    ensures !Unfinished(After(cfg, s, labels))
    decreases Work(cfg, s)
  {
    ReachableInv(cfg, s);
    WorkIsNatural(cfg, s);
    labels := [];
    if Unfinished(s) {
      NeverStuck(cfg, s);
      var l :| Finishes(l) && Enabled(cfg, s, l);
      FinishingLeavesLess(cfg, s, l);
      L.ReachesOn(cfg, s, l, []);
      var rest := ComesToRest(cfg, Step(cfg, s, l));
      labels := [l] + rest;
    }
  }

  lemma NobodyReturning(s: State)
    requires !Unfinished(s)
    ensures ReleasingSet(s.at) == {} && SweepQueue(s) == [] && StopQueue(s) == []
  {
    assert forall w :: w in ReleasingSet(s.at) ==> Releasing(s.at, w);
  }

  /** Demand is served to capacity: whenever a gentle run has left the pool at rest, a
      request can only be parked if at least `max_workers` workers are out with callers. */
  lemma RestMeansServedOrFull(cfg: Config, now: real, labels: seq<Label>)
    requires Runs(cfg, Initial(cfg, now), labels) && GentleRun(cfg, Initial(cfg, now), labels)
    requires !Unfinished(After(cfg, Initial(cfg, now), labels))
    ensures var t := After(cfg, Initial(cfg, now), labels);
            t.parked != [] ==> |OutSet(t.at)| >= cfg.maxWorkers
  {
    var t := After(cfg, Initial(cfg, now), labels);
    if t.parked != [] && 1 <= cfg.maxWorkers {
      InitialInv(cfg, now);
      ServedRun(cfg, Initial(cfg, now), labels);
      ParkedMeansFull(cfg, now, labels);
      Conservation(cfg, t);
      NobodyReturning(t);
      assert Holding(t.at, Abandoned) == {};
    }
  }
}

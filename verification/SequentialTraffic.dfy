/** One request at a time, whatever else happens to the pool: workers die, spawns fail,
    requests are cancelled, the sweep comes round at any moment. */
module SequentialTraffic {
  import opened IdleQueue
  import opened PoolModel
  import opened Ownership
  import opened PoolInvariant
  import opened PoolSteps
  import opened PoolSafety
  import opened Shutdown
  import opened WakeUps
  import S = Stranding
  import R = ReleaseLaw

  /** No request is queued or holds a worker, and no spawn is under way. */
  ghost predicate Settled(s: State) {
    && s.lock.Free? && s.f.pendingGrows == 0 && s.parked == [] && s.notified == [] && s.leaving == []
    && forall w :: !Returning(s.at, w)
  }

  /** Every request of the run arrives when the one before it is over and settled. */
  ghost predicate Sequential(cfg: Config, s: State, labels: seq<Label>)
    requires Runs(cfg, s, labels)
    decreases |labels|
  {
    labels == [] || ((labels[0].AcquireEnter? ==> Settled(s)) && Sequential(cfg, Step(cfg, s, labels[0]), labels[1..]))
  }

  ghost function Busy(at: map<nat, Place>): nat {
    if exists w :: Returning(at, w) then 1 else 0
  }

  function Refilling(s: State): nat {
    if s.lock.Replenishing? then 1 else 0
  }

  /** Idle workers, the one that is busy, and those being spawned. */
  ghost function Usable(s: State): int {
    |s.f.idle| + Busy(s.at) + s.f.pendingGrows + Refilling(s)
  }

  ghost predicate OneAtATime(s: State) {
    && !s.f.stopped && !s.lock.Starting?
    && (forall v, w :: Returning(s.at, v) && Returning(s.at, w) ==> v == w)
    && |s.parked| + |s.notified| + |s.leaving| + Busy(s.at) + Refilling(s) <= 1
    && s.f.pendingGrows <= 1
    && (s.f.pendingGrows > 0 ==> s.notified == [] && Busy(s.at) == 0 && !s.lock.Replenishing?)
  }

  /** A turn of the acquire loop with nobody else about. */
  lemma TurnAlone(cfg: Config, s: State, call: nat, n: int)
    requires Inv(cfg, s) && s.lock.Free? && !s.f.stopped && s.f.pendingGrows == 0 && 1 <= n
    requires s.parked == [] && s.notified == [] && s.leaving == []
             && (forall w :: !Returning(s.at, w)) && |s.f.idle| <= n
    ensures OneAtATime(LoopTop(cfg, s, call).next) && Usable(LoopTop(cfg, s, call).next) <= n
  {
    S.DropDeadReturning(s);
    var d := DropDead(s);
    var t := LoopTop(cfg, s, call).next;
    if d.f.idle != [] {
      var w := d.f.idle[0].id;
      forall v ensures Returning(t.at, v) <==> v == w {
        assert Returning(d.at, v) <==> Returning(s.at, v);
      }
      assert Returning(t.at, w) && Busy(t.at) == 1;
    } else {
      assert t.at == d.at;
      assert Busy(t.at) == 0;
    }
  }

  /** The one woken request has left the queue, and nothing else is going on. */
  lemma AloneWhenWoken(cfg: Config, s: State, i: nat)
    requires Inv(cfg, s) && OneAtATime(s) && Enabled(cfg, s, AcquireResume(i))
    ensures var w := Woken(s, i);
            && Inv(cfg, w) && w.f.pendingGrows == 0 && w.parked == [] && w.notified == [] && w.leaving == []
            && forall v :: !Returning(w.at, v)
  {
    WokenKeeps(cfg, s, i);
    assert Busy(s.at) == 0;
  }

  lemma AloneWhenResuming(cfg: Config, s: State, i: nat, n: int)
    requires Inv(cfg, s) && OneAtATime(s) && Usable(s) <= n && 1 <= n && Enabled(cfg, s, AcquireResume(i))
    ensures OneAtATime(Step(cfg, s, AcquireResume(i))) && Usable(Step(cfg, s, AcquireResume(i))) <= n
  {
    AloneWhenWoken(cfg, s, i);
    TurnAlone(cfg, Woken(s, i), s.notified[i].call, n);
  }

  lemma AloneWhenAsking(cfg: Config, s: State, l: Label, n: int)
    requires Inv(cfg, s) && OneAtATime(s) && Usable(s) <= n && 1 <= n && Enabled(cfg, s, l)
    requires (l.AcquireEnter? && Settled(s)) || l.AcquireResume?
    ensures OneAtATime(Step(cfg, s, l)) && Usable(Step(cfg, s, l)) <= n
  {
    if l.AcquireEnter? { TurnAlone(cfg, s, l.call, n); } else { AloneWhenResuming(cfg, s, l.index, n); }
  }

  /** Steps by which the one busy worker moves on. */
  predicate MovesBusy(l: Label) {
    l.ReleaseScheduled? || l.ReleaseKills? || l.ReleaseCounts?
  }

  lemma AloneWhenReleasing(cfg: Config, s: State, l: Label, n: int)
    requires OneAtATime(s) && Usable(s) <= n && Enabled(cfg, s, l) && MovesBusy(l)
    ensures OneAtATime(Step(cfg, s, l)) && Usable(Step(cfg, s, l)) <= n
  {
    var t := Step(cfg, s, l);
    assert Returning(s.at, l.worker) && Busy(s.at) == 1;
    if l.ReleaseCounts? {
      forall v ensures !Returning(t.at, v) { assert Returning(s.at, v) ==> v == l.worker; }
    } else {
      forall v ensures Returning(t.at, v) <==> v == l.worker { assert Returning(s.at, v) ==> v == l.worker; }
      assert Returning(t.at, l.worker) && Busy(t.at) == 1;
    }
  }

  /** Where nobody who is busy moves, only the counters matter. */
  lemma SameBusy(a: map<nat, Place>, b: map<nat, Place>)
    requires forall w :: Returning(a, w) <==> Returning(b, w)
    ensures Busy(a) == Busy(b)
  {
  }

  predicate MovesQueues(l: Label) {
    l.CancelParked? || l.CancelNotified? || l.CancelledLeaves? || l.GrowBegins? || l.SpawnFails?
  }

  lemma AloneWhenCancelled(cfg: Config, s: State, l: Label, n: int)
    requires OneAtATime(s) && Usable(s) <= n && Enabled(cfg, s, l)
             && (l.CancelParked? || l.CancelNotified? || l.CancelledLeaves?)
    ensures OneAtATime(Step(cfg, s, l)) && Usable(Step(cfg, s, l)) <= n
  {
    assert Step(cfg, s, l).at == s.at;
  }

  lemma AloneWhenGrowing(cfg: Config, s: State, l: Label, n: int)
    requires OneAtATime(s) && Usable(s) <= n && Enabled(cfg, s, l) && (l.GrowBegins? || l.SpawnFails?)
    ensures OneAtATime(Step(cfg, s, l)) && Usable(Step(cfg, s, l)) <= n
  {
    assert Step(cfg, s, l).at == s.at;
  }

  lemma AloneWhenQueuing(cfg: Config, s: State, l: Label, n: int)
    requires OneAtATime(s) && Usable(s) <= n && Enabled(cfg, s, l) && MovesQueues(l)
    ensures OneAtATime(Step(cfg, s, l)) && Usable(Step(cfg, s, l)) <= n
  {
    if l.GrowBegins? || l.SpawnFails? { AloneWhenGrowing(cfg, s, l, n); } else { AloneWhenCancelled(cfg, s, l, n); }
  }

  lemma AloneWhenSpawning(cfg: Config, s: State, n: int)
    requires Counted(s) && OneAtATime(s) && Usable(s) <= n && Enabled(cfg, s, SpawnSucceeds)
    ensures OneAtATime(Step(cfg, s, SpawnSucceeds)) && Usable(Step(cfg, s, SpawnSucceeds)) <= n
  {
    var t := Step(cfg, s, SpawnSucceeds);
    assert t.at == s.at[s.next := Idle];
    forall w ensures Returning(t.at, w) <==> Returning(s.at, w) {}
    SameBusy(s.at, t.at);
  }

  lemma AloneWhenSweeping(cfg: Config, s: State, l: Label, n: int)
    requires Inv(cfg, s) && OneAtATime(s) && Usable(s) <= n && Enabled(cfg, s, l) && (l.SweepSelects? || l.SweepCounts?)
    ensures OneAtATime(Step(cfg, s, l)) && Usable(Step(cfg, s, l)) <= n
  {
    var t := Step(cfg, s, l);
    if l.SweepSelects? {
      SweepTakesPrefix(s.f.idle, Allowance(cfg, s.f, s.now), Drains(cfg, s.f, s.now), s.now, cfg.idleTimeout);
      KillListIsIdle(cfg, s);
    } else {
      assert s.sweep.queue[0] in SweepQueue(s);
    }
    forall w ensures Returning(t.at, w) <==> Returning(s.at, w) {}
    SameBusy(s.at, t.at);
  }

  predicate Still(l: Label) {
    l.Tick? || l.WorkerDies? || l.SweepKills?
  }

  lemma AloneStep(cfg: Config, s: State, l: Label, n: int)
    requires Inv(cfg, s) && OneAtATime(s) && Usable(s) <= n && 1 <= n && Enabled(cfg, s, l) && !l.StopBegins?
    requires l.AcquireEnter? ==> Settled(s)
    ensures OneAtATime(Step(cfg, s, l)) && Usable(Step(cfg, s, l)) <= n
  {
    if Asks(l) { AloneWhenAsking(cfg, s, l, n); }
    else if MovesBusy(l) { AloneWhenReleasing(cfg, s, l, n); }
    else if MovesQueues(l) { AloneWhenQueuing(cfg, s, l, n); }
    else if l.SpawnSucceeds? { AloneWhenSpawning(cfg, s, n); }
    else if l.SweepSelects? || l.SweepCounts? { AloneWhenSweeping(cfg, s, l, n); }
    else { assert Still(l); }
  }

  lemma {:induction false} AloneRun(cfg: Config, s: State, labels: seq<Label>, n: int)
    requires Inv(cfg, s) && OneAtATime(s) && Usable(s) <= n && 1 <= n
    requires Runs(cfg, s, labels) && Sequential(cfg, s, labels) && StopBegins !in labels
    ensures OneAtATime(After(cfg, s, labels)) && Usable(After(cfg, s, labels)) <= n
    decreases |labels|
  {
    if labels != [] {
      AloneStep(cfg, s, labels[0], n);
      StepKeepsInv(cfg, s, labels[0]);
      AloneRun(cfg, Step(cfg, s, labels[0]), labels[1..], n);
    }
  }

  // ---- what this bounds ----

  lemma StillReachable(cfg: Config, s: State, labels: seq<Label>)
    requires Reachable(cfg, s) && Runs(cfg, s, labels)
    ensures Reachable(cfg, After(cfg, s, labels))
  {
    var before, now :| Runs(cfg, Initial(cfg, now), before) && After(cfg, Initial(cfg, now), before) == s;
    R.Join(cfg, Initial(cfg, now), before, s, labels, After(cfg, s, labels));
    assert Runs(cfg, Initial(cfg, now), before + labels);
  }

  lemma AtMostOneBusy(s: State)
    requires OneAtATime(s)
    ensures |OutSet(s.at)| + |ReleasingSet(s.at)| <= Busy(s.at)
  {
    var both := OutSet(s.at) + ReleasingSet(s.at);
    assert OutSet(s.at) !! ReleasingSet(s.at);
    assert |both| == |OutSet(s.at)| + |ReleasingSet(s.at)|;
    forall w | w in both ensures Returning(s.at, w) {}
    if exists w :: Returning(s.at, w) {
      var w :| Returning(s.at, w);
      assert both <= {w};
      assert |both + ({w} - both)| == |both| + |{w} - both|;
      assert both + ({w} - both) == {w};
    } else {
      assert both == {};
    }
  }

  /** Sequential traffic never makes the pool larger than it found it, beyond the one
      worker that a request needs: from at most n idle workers (n >= 1) it never holds
      more than n, not counting those that a sweep is just killing. */
  lemma SequentialTrafficStaysWithin(cfg: Config, s: State, labels: seq<Label>, n: int)
    requires Reachable(cfg, s) && Settled(s) && !s.f.stopped && |s.f.idle| <= n && 1 <= n
    requires Runs(cfg, s, labels) && Sequential(cfg, s, labels) && StopBegins !in labels
    ensures var t := After(cfg, s, labels); |t.f.idle| <= n && t.f.total <= n + |SweepQueue(t)|
  {
    ReachableInv(cfg, s);
    AloneRun(cfg, s, labels, n);
    var t := After(cfg, s, labels);
    StillReachable(cfg, s, labels);
    Conservation(cfg, t);
    NobodyAbandonedWhileOpen(cfg, t);
    assert Holding(t.at, Abandoned) == {};
    AtMostOneBusy(t);
    ReachableInv(cfg, t);
  }

  /** So a drained pool is never re-warmed by requests that come one at a time: it holds
      at most one worker ever after, however many requests come, instead of climbing
      back to min_workers. */
  lemma DrainedStaysSmall(cfg: Config, s: State, labels: seq<Label>)
    requires Reachable(cfg, s) && Settled(s) && !s.f.stopped && s.f.idle == []
    requires Runs(cfg, s, labels) && Sequential(cfg, s, labels) && StopBegins !in labels
    ensures var t := After(cfg, s, labels);
            && |t.f.idle| <= 1 && t.f.total <= 1 + |SweepQueue(t)|
            && (cfg.minWorkers >= 2 ==> |t.f.idle| < cfg.minWorkers)
  {
    SequentialTrafficStaysWithin(cfg, s, labels, 1);
  }

  /** And from a pool of at most min_workers idle workers the sweep never finds an excess
      one: it kills nobody unless it drains. */
  lemma NoExcessInSequence(cfg: Config, s: State, labels: seq<Label>)
    requires Reachable(cfg, s) && Settled(s) && !s.f.stopped && |s.f.idle| <= cfg.minWorkers && 1 <= cfg.minWorkers
    requires Runs(cfg, s, labels) && Sequential(cfg, s, labels) && StopBegins !in labels
    ensures var t := After(cfg, s, labels); Drains(cfg, t.f, t.now) || KillList(cfg, t.f, t.now) == []
  {
    SequentialTrafficStaysWithin(cfg, s, labels, cfg.minWorkers);
    var t := After(cfg, s, labels);
    StillReachable(cfg, s, labels);
    ReachableInv(cfg, t);
    SweepTakesPrefix(t.f.idle, Allowance(cfg, t.f, t.now), Drains(cfg, t.f, t.now), t.now, cfg.idleTimeout);
  }
}

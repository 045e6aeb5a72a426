/** Whether a parked request can be forgotten.

    The pool's comments promise that no waiter is left with nothing to wake it. That
    holds as long as spawns succeed, the sweep takes nobody, the pool is not stopped and
    a request that is cancelled or times out passes its wake-up on. */
module WakeUps {
  import opened Wrappers
  import opened IdleQueue
  import opened PoolModel
  import opened PoolInvariant
  import opened PoolSteps

  /** A worker that is out, or on its way back, will end in a counted release. */
  predicate Returning(at: map<nat, Place>, w: nat) {
    w in at && (at[w].Out? || at[w].ReleaseQueued? || at[w].ReleaseKilled?)
  }

  /** Something under way will give the parked requests another look. */
  ghost predicate WakeSource(s: State) {
    s.f.pendingGrows > 0 || s.notified != [] || s.lock.Replenishing? || exists w :: Returning(s.at, w)
  }

  ghost predicate Stranded(s: State) {
    s.parked != [] && !WakeSource(s)
  }

  /** Stranded, and no request on its way out is about to pass a wake-up on either. */
  ghost predicate Forsaken(s: State) {
    Stranded(s) && s.leaving == []
  }

  /** Steps under which the promise is kept: no spawn fails, no sweep finds anyone to
      kill, nothing is stopped, and whoever is cancelled or times out passes a wake-up on. */
  predicate Gentle(cfg: Config, s: State, l: Label) {
    match l
    case SpawnFails(_) => false
    case StopBegins => false
    case SweepSelects => KillList(cfg, s.f, s.now) == []
    case CancelledLeaves(_, relays) => relays
    case _ => true
  }

  predicate GentleRun(cfg: Config, s: State, labels: seq<Label>)
    requires Runs(cfg, s, labels)
    decreases |labels|
  {
    labels == [] || (Gentle(cfg, s, labels[0]) && GentleRun(cfg, Step(cfg, s, labels[0]), labels[1..]))
  }

  /** What gentle steps keep: every idle worker has a wake-up of its own under way, with a
      woken request or one about to leave, and counted workers are idle or coming back. */
  ghost predicate Served(s: State) {
    && !s.f.stopped && s.stop.NotStopping? && s.f.spawnError == None && !s.sweep.SweepKilling?
    && (forall w :: w in s.at ==> s.at[w].Idle? || Returning(s.at, w))
    && (s.parked != [] ==> |s.f.idle| <= |s.notified| + |s.leaving| && !Forsaken(s))
  }

  lemma SomeoneReturns(s: State)
    requires Custody(s) && s.f.idle == [] && s.f.total > 0
    requires forall w :: w in s.at ==> s.at[w].Idle? || Returning(s.at, w)
    ensures exists w :: Returning(s.at, w)
  {
    assert |s.at.Keys| > 0;
    var w :| w in s.at;
    assert w in WorkerIds(s.f.idle) <==> s.at[w].Idle?;
  }

  /** Every counted worker is idle or comes back, and the pool is open. */
  ghost predicate Whole(s: State) {
    && !s.f.stopped && s.stop.NotStopping? && s.f.spawnError == None && !s.sweep.SweepKilling?
    && forall w :: w in s.at ==> s.at[w].Idle? || Returning(s.at, w)
  }

  lemma ServedGot(s: State, call: nat)
    requires Custody(s) && Whole(s) && s.f.idle != []
    requires s.parked != [] ==> |s.f.idle| <= |s.notified| + |s.leaving| + 1
    ensures Served(s.(f := s.f.(idle := s.f.idle[1..]), at := s.at[s.f.idle[0].id := Out(call)]))
  {
    var at := s.at[s.f.idle[0].id := Out(call)];
    forall w | w in at ensures at[w].Idle? || Returning(at, w) {
      assert w in s.at ==> s.at[w].Idle? || Returning(s.at, w);
    }
    assert Returning(at, s.f.idle[0].id);
  }

  lemma ServedPark(cfg: Config, s: State, call: nat)
    requires Custody(s) && Counters(s) && Whole(s) && s.f.idle == [] && 1 <= cfg.maxWorkers
    ensures Served(Park(cfg, s, call))
  {
    if s.f.total >= cfg.maxWorkers {
      SomeoneReturns(s);
      assert Park(cfg, s, call).at == s.at;
    }
  }

  /** One turn of the acquire loop; a woken request has just given up its wake-up. */
  lemma ServedLoopTop(cfg: Config, s: State, call: nat)
    requires Inv(cfg, s) && Whole(s) && s.lock.Free? && 1 <= cfg.maxWorkers
    requires s.parked != [] ==> |s.f.idle| <= |s.notified| + |s.leaving| + 1
    ensures Served(LoopTop(cfg, s, call).next)
  {
    DropDeadCustody(s);
    var d := DropDead(s);
    forall w | w in d.at ensures d.at[w].Idle? || Returning(d.at, w) {
      assert s.at[w].Idle? || Returning(s.at, w);
    }
    if d.f.idle != [] { ServedGot(d, call); } else { ServedPark(cfg, d, call); }
  }

  lemma ServedWhenAsking(cfg: Config, s: State, l: Label)
    requires Inv(cfg, s) && Served(s) && Enabled(cfg, s, l) && 1 <= cfg.maxWorkers
    requires l.AcquireEnter? || l.AcquireResume?
    ensures Served(Step(cfg, s, l))
  {
    if l.AcquireEnter? {
      ServedLoopTop(cfg, s, l.call);
    } else {
      WokenKeeps(cfg, s, l.index);
      ServedLoopTop(cfg, Woken(s, l.index), s.notified[l.index].call);
    }
  }

  lemma ServedOnTheWayBack(cfg: Config, s: State, l: Label)
    requires Served(s) && Enabled(cfg, s, l) && (l.ReleaseScheduled? || l.ReleaseKills?)
    ensures Served(Step(cfg, s, l))
  {
    var t := Step(cfg, s, l);
    forall w | w in t.at ensures t.at[w].Idle? || Returning(t.at, w) {
      assert s.at[w].Idle? || Returning(s.at, w);
    }
    assert Returning(t.at, l.worker);
  }

  lemma ServedWhenCounted(cfg: Config, s: State, w: nat)
    requires Inv(cfg, s) && Served(s) && Enabled(cfg, s, ReleaseCounts(w)) && 1 <= cfg.maxWorkers
    ensures Served(Step(cfg, s, ReleaseCounts(w)))
  {
    var t := Step(cfg, s, ReleaseCounts(w));
    forall v | v in t.at ensures t.at[v].Idle? || Returning(t.at, v) {
      assert s.at[v].Idle? || Returning(s.at, v);
    }
  }

  lemma ServedWhenReleasing(cfg: Config, s: State, l: Label)
    requires Inv(cfg, s) && Served(s) && Enabled(cfg, s, l) && 1 <= cfg.maxWorkers
    requires l.ReleaseScheduled? || l.ReleaseKills? || l.ReleaseCounts?
    ensures Served(Step(cfg, s, l))
  {
    if l.ReleaseCounts? { ServedWhenCounted(cfg, s, l.worker); } else { ServedOnTheWayBack(cfg, s, l); }
  }

  lemma ServedWhenSpawning(cfg: Config, s: State, l: Label)
    requires Inv(cfg, s) && Served(s) && Enabled(cfg, s, l)
    requires l.StartSpawned? || l.SpawnSucceeds?
    ensures Served(Step(cfg, s, l))
  {
    var t := Step(cfg, s, l);
    forall w | w in t.at ensures t.at[w].Idle? || Returning(t.at, w) {
      assert w in s.at ==> s.at[w].Idle? || Returning(s.at, w);
    }
  }

  lemma ServedWhenGrowing(cfg: Config, s: State)
    requires Inv(cfg, s) && Served(s) && Enabled(cfg, s, GrowBegins) && 1 <= cfg.maxWorkers
    ensures Served(Step(cfg, s, GrowBegins))
  {
    if s.parked != [] && s.notified == [] && s.leaving == [] && s.f.total >= cfg.maxWorkers {
      SomeoneReturns(s);
    }
  }

  lemma ServedWhenSweeping(cfg: Config, s: State)
    requires Inv(cfg, s) && Served(s) && Enabled(cfg, s, SweepSelects) && KillList(cfg, s.f, s.now) == []
    ensures Served(Step(cfg, s, SweepSelects))
  {
    SweepTakesPrefix(s.f.idle, Allowance(cfg, s.f, s.now), Drains(cfg, s.f, s.now), s.now, cfg.idleTimeout);
    assert Step(cfg, s, SweepSelects).at == s.at;
  }

  predicate Interrupts(l: Label) {
    l.CancelParked? || l.CancelNotified? || (l.CancelledLeaves? && l.relays)
  }

  /** A wake-up that is cancelled is passed on when the request leaves. */
  lemma ServedWhenInterrupted(cfg: Config, s: State, l: Label)
    requires Served(s) && Enabled(cfg, s, l) && Interrupts(l)
    ensures Served(Step(cfg, s, l))
  {
    assert Step(cfg, s, l).at == s.at;
  }

  lemma ServedOtherwise(cfg: Config, s: State, l: Label)
    requires Inv(cfg, s) && Served(s) && Enabled(cfg, s, l)
    requires l.Tick? || l.WorkerDies? || l.StartAborted?
    ensures Served(Step(cfg, s, l))
  {
  }

  /** What a gentle step of an open pool can be. */
  lemma GentleSteps(cfg: Config, s: State, l: Label)
    requires Inv(cfg, s) && Served(s) && Enabled(cfg, s, l) && Gentle(cfg, s, l)
    ensures Asks(l) || l.ReleaseScheduled? || l.ReleaseKills? || l.ReleaseCounts? || l.StartSpawned? || l.SpawnSucceeds?
            || l.GrowBegins? || l.SweepSelects? || Interrupts(l) || l.Tick? || l.WorkerDies? || l.StartAborted?
  {
  }

  lemma ServedStep(cfg: Config, s: State, l: Label)
    requires Inv(cfg, s) && Served(s) && Enabled(cfg, s, l) && Gentle(cfg, s, l)
    requires 1 <= cfg.maxWorkers
    ensures Served(Step(cfg, s, l))
  {
    GentleSteps(cfg, s, l);
    if Asks(l) { ServedWhenAsking(cfg, s, l); }
    else if l.ReleaseScheduled? || l.ReleaseKills? || l.ReleaseCounts? { ServedWhenReleasing(cfg, s, l); }
    else if l.StartSpawned? || l.SpawnSucceeds? { ServedWhenSpawning(cfg, s, l); }
    else if l.GrowBegins? { ServedWhenGrowing(cfg, s); }
    else if l.SweepSelects? { ServedWhenSweeping(cfg, s); }
    else if Interrupts(l) { ServedWhenInterrupted(cfg, s, l); }
    else { ServedOtherwise(cfg, s, l); }
  }

  lemma {:induction false} ServedRun(cfg: Config, s: State, labels: seq<Label>)
    requires Inv(cfg, s) && Served(s) && Runs(cfg, s, labels) && GentleRun(cfg, s, labels)
    requires 1 <= cfg.maxWorkers
    ensures Inv(cfg, After(cfg, s, labels)) && Served(After(cfg, s, labels))
    decreases |labels|
  {
    if labels != [] {
      ServedStep(cfg, s, labels[0]);
      StepKeepsInv(cfg, s, labels[0]);
      ServedRun(cfg, Step(cfg, s, labels[0]), labels[1..]);
    }
  }

  /** No lost wake-up, where a cancelled wait passes its wake-up on (Python 3.13 and
      later): after any gentle run from start-up, acquire timeouts and cancellations
      included, every parked request has a grow pending, a woken companion, one that is
      just leaving, or a worker out or being released. */
  lemma NoLostWakeUpWithRelays(cfg: Config, now: real, labels: seq<Label>)
    requires 1 <= cfg.maxWorkers
    requires Runs(cfg, Initial(cfg, now), labels) && GentleRun(cfg, Initial(cfg, now), labels)
    ensures !Forsaken(After(cfg, Initial(cfg, now), labels))
  {
    InitialInv(cfg, now);
    ServedRun(cfg, Initial(cfg, now), labels);
  }

  /** No request is cancelled or times out while it is queued. */
  predicate Uncancelled(labels: seq<Label>) {
    forall l :: l in labels ==> !l.CancelParked? && !l.CancelNotified?
  }

  lemma {:induction false} NobodyLeaves(cfg: Config, s: State, labels: seq<Label>)
    requires Runs(cfg, s, labels) && Uncancelled(labels) && s.leaving == []
    ensures After(cfg, s, labels).leaving == []
    decreases |labels|
  {
    if labels != [] {
      NobodyLeaves(cfg, Step(cfg, s, labels[0]), labels[1..]);
    }
  }

  /** No lost wake-up, whatever the condition does with cancelled wake-ups, as long as
      nobody is cancelled. */
  lemma NoLostWakeUp(cfg: Config, now: real, labels: seq<Label>)
    requires 1 <= cfg.maxWorkers
    requires Runs(cfg, Initial(cfg, now), labels) && GentleRun(cfg, Initial(cfg, now), labels) && Uncancelled(labels)
    ensures !Stranded(After(cfg, Initial(cfg, now), labels))
  {
    NoLostWakeUpWithRelays(cfg, now, labels);
    NobodyLeaves(cfg, Initial(cfg, now), labels);
  }
}

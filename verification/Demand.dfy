/** Parked requests never leave room unused: what the grows are scheduled for. */
module Demand {
  import opened IdleQueue
  import opened PoolModel
  import opened Ownership
  import opened PoolInvariant
  import opened PoolSteps
  import opened WakeUps
  import L = PoolLaws

  /** The workers that are about to be spawned. */
  function Coming(s: State): int {
    s.f.pendingGrows + if s.lock.Replenishing? then 1 else 0
  }

  /** Each parked request has a spawn of its own under way, or a wake-up from somebody who
      is just leaving; or else the workers that are not idle, the spawns under way and the
      requests still to look make up the cap. */
  predicate RoomUsed(cfg: Config, s: State) {
    || |s.parked| <= Coming(s) + |s.leaving|
    || s.f.total - |s.f.idle| + |s.notified| + |s.leaving| + Coming(s) >= cfg.maxWorkers
  }

  lemma RoomInTurn(cfg: Config, s: State, call: nat, woken: nat)
    requires Inv(cfg, s) && !s.f.stopped && s.lock.Free? && woken <= 1
    requires || |s.parked| <= Coming(s) + |s.leaving|
             || s.f.total - |s.f.idle| + |s.notified| + woken + |s.leaving| + Coming(s) >= cfg.maxWorkers
    ensures RoomUsed(cfg, LoopTop(cfg, s, call).next)
  {
    var d := DeadPrefix(s.f.idle, s.live);
    if d < |s.f.idle| {
      L.TurnTakes(cfg, s, call, d);
    } else {
      L.TurnParks(cfg, s, call);
    }
  }

  lemma RoomWhenAsking(cfg: Config, s: State, l: Label)
    requires Inv(cfg, s) && Served(s) && RoomUsed(cfg, s) && Enabled(cfg, s, l) && Asks(l)
    ensures RoomUsed(cfg, Step(cfg, s, l))
  {
    if l.AcquireEnter? {
      RoomInTurn(cfg, s, l.call, 0);
    } else {
      WokenKeeps(cfg, s, l.index);
      RoomInTurn(cfg, Woken(s, l.index), s.notified[l.index].call, 1);
    }
  }

  predicate Comes(l: Label) {
    l.StartSpawned? || l.SpawnSucceeds? || l.GrowBegins? || l.CancelledLeaves?
  }

  lemma RoomWhenComing(cfg: Config, s: State, l: Label)
    requires Inv(cfg, s) && Served(s) && RoomUsed(cfg, s) && Enabled(cfg, s, l) && Gentle(cfg, s, l) && Comes(l)
    ensures RoomUsed(cfg, Step(cfg, s, l))
  {
  }

  lemma RoomWhenReleasing(cfg: Config, s: State, l: Label)
    requires Inv(cfg, s) && Served(s) && RoomUsed(cfg, s) && Enabled(cfg, s, l)
    requires l.ReleaseScheduled? || l.ReleaseKills? || l.ReleaseCounts?
    ensures RoomUsed(cfg, Step(cfg, s, l))
  {
  }

  lemma RoomWhenSweeping(cfg: Config, s: State)
    requires Inv(cfg, s) && RoomUsed(cfg, s) && Enabled(cfg, s, SweepSelects) && Gentle(cfg, s, SweepSelects)
    ensures RoomUsed(cfg, Step(cfg, s, SweepSelects))
  {
    SweepTakesPrefix(s.f.idle, Allowance(cfg, s.f, s.now), Drains(cfg, s.f, s.now), s.now, cfg.idleTimeout);
  }

  lemma RoomOtherwise(cfg: Config, s: State, l: Label)
    requires Inv(cfg, s) && RoomUsed(cfg, s) && Enabled(cfg, s, l)
    requires l.CancelParked? || l.CancelNotified? || l.Tick? || l.WorkerDies? || l.StartAborted?
    ensures RoomUsed(cfg, Step(cfg, s, l))
  {
  }

  lemma RoomStep(cfg: Config, s: State, l: Label)
    requires Inv(cfg, s) && Served(s) && RoomUsed(cfg, s) && Enabled(cfg, s, l) && Gentle(cfg, s, l)
    ensures RoomUsed(cfg, Step(cfg, s, l))
  {
    GentleSteps(cfg, s, l);
    if Asks(l) { RoomWhenAsking(cfg, s, l); }
    else if Comes(l) { RoomWhenComing(cfg, s, l); }
    else if l.ReleaseScheduled? || l.ReleaseKills? || l.ReleaseCounts? { RoomWhenReleasing(cfg, s, l); }
    else if l.SweepSelects? { RoomWhenSweeping(cfg, s); }
    else { RoomOtherwise(cfg, s, l); }
  }

  lemma {:induction false} RoomRun(cfg: Config, s: State, labels: seq<Label>)
    requires Inv(cfg, s) && Served(s) && RoomUsed(cfg, s) && Runs(cfg, s, labels) && GentleRun(cfg, s, labels)
    requires 1 <= cfg.maxWorkers
    ensures Inv(cfg, After(cfg, s, labels)) && RoomUsed(cfg, After(cfg, s, labels))
    decreases |labels|
  {
    if labels != [] {
      RoomStep(cfg, s, labels[0]);
      ServedStep(cfg, s, labels[0]);
      StepKeepsInv(cfg, s, labels[0]);
      RoomRun(cfg, Step(cfg, s, labels[0]), labels[1..]);
    }
  }

  /** Parked requests never leave room unused: after any gentle run from start-up, for any
      settings, cancellations that are passed on included. */
  lemma ParkedLeaveNoRoom(cfg: Config, now: real, labels: seq<Label>)
    requires Runs(cfg, Initial(cfg, now), labels) && GentleRun(cfg, Initial(cfg, now), labels)
    ensures RoomUsed(cfg, After(cfg, Initial(cfg, now), labels))
  {
    InitialInv(cfg, now);
    if 1 <= cfg.maxWorkers {
      RoomRun(cfg, Initial(cfg, now), labels);
    } else {
      RunKeepsInv(cfg, Initial(cfg, now), labels);
      IdleAreCounted(cfg, After(cfg, Initial(cfg, now), labels));
    }
  }

  lemma IdleAreCounted(cfg: Config, s: State)
    requires Inv(cfg, s)
    ensures |s.f.idle| <= s.f.total
  {
    OwnsAll(WorkerIds(s.f.idle), s.at, Idle);
    assert Holding(s.at, Idle) <= s.at.Keys;
    assert |s.at.Keys - Holding(s.at, Idle)| == |s.at.Keys| - |Holding(s.at, Idle)|;
  }

  /** So once everything that is under way has come to rest, a request is parked only if
      `max_workers` workers are with callers or on their way back. */
  lemma ParkedMeansFull(cfg: Config, now: real, labels: seq<Label>)
    requires Runs(cfg, Initial(cfg, now), labels) && GentleRun(cfg, Initial(cfg, now), labels)
    requires var t := After(cfg, Initial(cfg, now), labels);
             t.parked != [] && Coming(t) == 0 && t.notified == [] && t.leaving == []
    ensures var t := After(cfg, Initial(cfg, now), labels); t.f.total - |t.f.idle| >= cfg.maxWorkers
  {
    ParkedLeaveNoRoom(cfg, now, labels);
  }
}

/** Whether "worker spawn failed" is true of the request that is told so. */
module SpawnErrors {
  import opened PoolModel
  import opened PoolInvariant
  import opened PoolSteps

  /** A spawn attempt recorded since then failed. */
  ghost predicate FailedSince(log: seq<Attempt>, since: nat) {
    exists i :: since <= i < |log| && log[i].SpawnFailed?
  }

  lemma LongerLog(log: seq<Attempt>, a: Attempt, since: nat)
    ensures FailedSince(log, since) ==> FailedSince(log + [a], since)
    ensures a.SpawnFailed? && since <= |log| ==> FailedSince(log + [a], since)
  {
    if FailedSince(log, since) {
      var i :| since <= i < |log| && log[i].SpawnFailed?;
      assert (log + [a])[i] == log[i];
    }
    assert (log + [a])[|log|] == a;
  }

  ghost predicate Stamped(s: State) {
    && (forall i :: 0 <= i < |s.parked| ==> s.parked[i].since <= |s.log|)
    && (forall i :: 0 <= i < |s.notified| ==> s.notified[i].since <= |s.log|)
  }

  lemma StampedInTurn(cfg: Config, s: State, call: nat)
    requires Stamped(s)
    ensures Stamped(LoopTop(cfg, s, call).next)
  {
  }

  lemma StampedWhenAsking(cfg: Config, s: State, l: Label)
    requires Stamped(s) && Enabled(cfg, s, l) && Asks(l)
    ensures Stamped(Step(cfg, s, l))
  {
    if l.AcquireEnter? {
      StampedInTurn(cfg, s, l.call);
    } else {
      StampedInTurn(cfg, Woken(s, l.index), s.notified[l.index].call);
    }
  }

  predicate Spawns(l: Label) {
    l.StartSpawned? || l.SpawnSucceeds? || l.SpawnFails?
  }

  lemma StampedWhenSpawning(cfg: Config, s: State, l: Label)
    requires Stamped(s) && Enabled(cfg, s, l) && Spawns(l)
    ensures Stamped(Step(cfg, s, l))
  {
  }

  lemma StampedOtherwiseWhenSupplying(cfg: Config, s: State, l: Label)
    requires Stamped(s) && Enabled(cfg, s, l) && !Asks(l)
    requires Supplies(l) && !Spawns(l)
    ensures Stamped(Step(cfg, s, l))
  {
  }

  lemma StampedOtherwiseWhenRetiring(cfg: Config, s: State, l: Label)
    requires Stamped(s) && Enabled(cfg, s, l) && !Asks(l)
    requires Retires(l)
    ensures Stamped(Step(cfg, s, l))
  {
  }

  lemma StampedOtherwise(cfg: Config, s: State, l: Label)
    requires Stamped(s) && Enabled(cfg, s, l) && !Asks(l)
    ensures Stamped(Step(cfg, s, l))
  {
    if Spawns(l) { StampedWhenSpawning(cfg, s, l); }
    else if Supplies(l) { StampedOtherwiseWhenSupplying(cfg, s, l); } else { StampedOtherwiseWhenRetiring(cfg, s, l); }
  }

  lemma StampedStep(cfg: Config, s: State, l: Label)
    requires Stamped(s) && Enabled(cfg, s, l)
    ensures Stamped(Step(cfg, s, l))
  {
    if Asks(l) { StampedWhenAsking(cfg, s, l); } else { StampedOtherwise(cfg, s, l); }
  }

  // ---- where a cancelled waiter keeps its wake-up to itself ----

  /** Whoever was woken and would now see an error has seen a spawn fail. */
  ghost predicate WokenByTruth(s: State) {
    s.f.spawnError.Some? ==> forall i :: 0 <= i < |s.notified| ==> FailedSince(s.log, s.notified[i].since)
  }

  predicate Unrelayed(l: Label) {
    !(l.CancelledLeaves? && l.relays) && !l.StopCloses?
  }

  lemma WokenWhenAsking(cfg: Config, s: State, l: Label)
    requires WokenByTruth(s) && Enabled(cfg, s, l) && Asks(l)
    ensures WokenByTruth(Step(cfg, s, l))
  {
  }

  lemma WokenWhenFailing(cfg: Config, s: State, l: Label)
    requires Stamped(s) && Enabled(cfg, s, l) && l.SpawnFails?
    ensures WokenByTruth(Step(cfg, s, l))
  {
    var t := Step(cfg, s, l);
    forall i | 0 <= i < |t.notified| ensures FailedSince(t.log, t.notified[i].since) {
      LongerLog(s.log, SpawnFailed(l.error), t.notified[i].since);
    }
  }

  lemma WokenOtherwise(cfg: Config, s: State, l: Label)
    requires WokenByTruth(s) && Enabled(cfg, s, l) && Unrelayed(l) && !Asks(l) && !l.SpawnFails?
    ensures WokenByTruth(Step(cfg, s, l))
  {
  }

  lemma WokenStep(cfg: Config, s: State, l: Label)
    requires Stamped(s) && WokenByTruth(s) && Enabled(cfg, s, l) && Unrelayed(l)
    ensures WokenByTruth(Step(cfg, s, l))
  {
    if Asks(l) { WokenWhenAsking(cfg, s, l); }
    else if l.SpawnFails? { WokenWhenFailing(cfg, s, l); }
    else { WokenOtherwise(cfg, s, l); }
  }

  lemma {:induction false} WokenRun(cfg: Config, s: State, labels: seq<Label>)
    requires Stamped(s) && WokenByTruth(s) && Runs(cfg, s, labels) && forall l :: l in labels ==> Unrelayed(l)
    ensures WokenByTruth(After(cfg, s, labels))
    decreases |labels|
  {
    if labels != [] {
      StampedStep(cfg, s, labels[0]);
      WokenStep(cfg, s, labels[0]);
      WokenRun(cfg, Step(cfg, s, labels[0]), labels[1..]);
    }
  }

  /** A request refused with "worker spawn failed" before stop() closes the pool had a
      spawn attempt fail while it was parked; the error it is shown is that of the
      latest recorded attempt, and no grow is queued or running. This is for a
      condition that does not pass a cancelled waiter's wake-up on. */
  lemma SpawnFailureIsTruthful(cfg: Config, now: real, labels: seq<Label>, i: nat)
    requires Runs(cfg, Initial(cfg, now), labels) && forall l :: l in labels ==> Unrelayed(l)
    requires Enabled(cfg, After(cfg, Initial(cfg, now), labels), AcquireResume(i))
    requires Wake(cfg, After(cfg, Initial(cfg, now), labels), i).answer.SpawnError?
    ensures var s := After(cfg, Initial(cfg, now), labels);
            && FailedSince(s.log, s.notified[i].since)
            && s.log != [] && s.log[|s.log| - 1] == SpawnFailed(Wake(cfg, s, i).answer.error)
            && s.grows == 0 && !s.lock.Growing?
  {
    WokenRun(cfg, Initial(cfg, now), labels);
    InitialInv(cfg, now);
    RunKeepsInv(cfg, Initial(cfg, now), labels);
  }

  // ---- where a cancelled waiter passes its wake-up on ----

  /** An error on record leaves room for a grow, and whoever waits under it either has
      seen the failure or has a grow pending. */
  ghost predicate GrowOrFailure(cfg: Config, s: State) {
    s.f.spawnError.Some? ==>
      && s.f.total < cfg.maxWorkers
      && (forall i :: 0 <= i < |s.parked| ==> FailedSince(s.log, s.parked[i].since) || s.f.pendingGrows > 0)
      && (forall i :: 0 <= i < |s.notified| ==> FailedSince(s.log, s.notified[i].since) || s.f.pendingGrows > 0)
  }

  lemma GrowOrFailureInTurn(cfg: Config, s: State, call: nat)
    requires Counters(s) && GrowOrFailure(cfg, s)
    ensures GrowOrFailure(cfg, LoopTop(cfg, s, call).next)
  {
  }

  lemma GrowOrFailureWhenAsking(cfg: Config, s: State, l: Label)
    requires Inv(cfg, s) && GrowOrFailure(cfg, s) && Enabled(cfg, s, l) && Asks(l)
    ensures GrowOrFailure(cfg, Step(cfg, s, l))
  {
    if l.AcquireEnter? {
      GrowOrFailureInTurn(cfg, s, l.call);
    } else {
      WokenKeeps(cfg, s, l.index);
      GrowOrFailureInTurn(cfg, Woken(s, l.index), s.notified[l.index].call);
    }
  }

  lemma FailureSeenByAll(cfg: Config, s: State, l: Label)
    requires Capacity(cfg, s) && Stamped(s) && Enabled(cfg, s, l) && l.SpawnFails? && cfg.minWorkers <= cfg.maxWorkers
    ensures GrowOrFailure(cfg, Step(cfg, s, l))
  {
    var t := Step(cfg, s, l);
    forall k: nat | k <= |s.log| ensures FailedSince(t.log, k) {
      LongerLog(s.log, SpawnFailed(l.error), k);
    }
  }

  /** The steps that move waiters, grows or the recorded error, and the rest. */
  predicate MovesGrows(l: Label) {
    l.StartSpawned? || l.SpawnSucceeds? || l.CancelParked? || l.CancelNotified? || l.CancelledLeaves?
    || l.GrowBegins? || l.StopCloses?
  }

  lemma GrowOrFailureCancels(cfg: Config, s: State, l: Label)
    requires GrowOrFailure(cfg, s) && Enabled(cfg, s, l) && (l.CancelParked? || l.CancelNotified? || l.CancelledLeaves?)
    ensures GrowOrFailure(cfg, Step(cfg, s, l))
  {
  }

  lemma GrowOrFailureSpawns(cfg: Config, s: State, l: Label)
    requires GrowOrFailure(cfg, s) && Enabled(cfg, s, l) && !s.f.stopped
    requires l.StartSpawned? || l.SpawnSucceeds? || l.GrowBegins? || l.StopCloses?
    ensures GrowOrFailure(cfg, Step(cfg, s, l))
  {
  }

  lemma GrowOrFailureMoves(cfg: Config, s: State, l: Label)
    requires GrowOrFailure(cfg, s) && Enabled(cfg, s, l) && !s.f.stopped && MovesGrows(l)
    ensures GrowOrFailure(cfg, Step(cfg, s, l))
  {
    if l.CancelParked? || l.CancelNotified? || l.CancelledLeaves? { GrowOrFailureCancels(cfg, s, l); }
    else { GrowOrFailureSpawns(cfg, s, l); }
  }

  lemma GrowOrFailureFrame(cfg: Config, s: State, l: Label)
    requires GrowOrFailure(cfg, s) && Enabled(cfg, s, l) && !s.f.stopped && !Asks(l) && !l.SpawnFails? && !MovesGrows(l)
    ensures GrowOrFailure(cfg, Step(cfg, s, l))
  {
  }

  lemma {:induction false} GrowOrFailureRun(cfg: Config, s: State, labels: seq<Label>)
    requires Inv(cfg, s) && Stamped(s) && GrowOrFailure(cfg, s) && Runs(cfg, s, labels)
    requires cfg.minWorkers <= cfg.maxWorkers && !s.f.stopped && StopBegins !in labels
    ensures GrowOrFailure(cfg, After(cfg, s, labels))
    decreases |labels|
  {
    if labels != [] {
      var l := labels[0];
      StampedStep(cfg, s, l);
      StepKeepsInv(cfg, s, l);
      OpenStays(cfg, s, l);
      if Asks(l) { GrowOrFailureWhenAsking(cfg, s, l); }
      else if l.SpawnFails? { FailureSeenByAll(cfg, s, l); }
      else if MovesGrows(l) { GrowOrFailureMoves(cfg, s, l); }
      else { GrowOrFailureFrame(cfg, s, l); }
      var t := Step(cfg, s, l);
      GrowOrFailureRun(cfg, t, labels[1..]);
    }
  }

  /** The same promise with a condition that does pass cancelled wake-ups on (Python
      3.13 and later): before stop(), it needs min_workers <= max_workers. */
  lemma SpawnFailureIsTruthfulWithRelays(cfg: Config, now: real, labels: seq<Label>, i: nat)
    requires cfg.minWorkers <= cfg.maxWorkers
    requires Runs(cfg, Initial(cfg, now), labels) && StopBegins !in labels
    requires i < |After(cfg, Initial(cfg, now), labels).notified|
    requires Wake(cfg, After(cfg, Initial(cfg, now), labels), i).answer.SpawnError?
    ensures var s := After(cfg, Initial(cfg, now), labels);
            && FailedSince(s.log, s.notified[i].since)
            && s.log != [] && s.log[|s.log| - 1] == SpawnFailed(Wake(cfg, s, i).answer.error)
            && s.grows == 0 && !s.lock.Growing?
  {
    InitialInv(cfg, now);
    GrowOrFailureRun(cfg, Initial(cfg, now), labels);
    RunKeepsInv(cfg, Initial(cfg, now), labels);
  }
}

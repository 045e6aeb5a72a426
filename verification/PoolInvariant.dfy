/** What every step of every pool task keeps. */
module PoolInvariant {
  import opened Wrappers
  import opened IdleQueue
  import opened PoolModel
  import opened Ownership

  function SweepQueue(s: State): seq<nat> {
    if s.sweep.SweepKilling? then s.sweep.queue else []
  }

  function StopQueue(s: State): seq<nat> {
    if s.stop.StopKilling? then s.stop.queue else []
  }

  /** The count equals the workers in custody; only workers in custody can live. */
  ghost predicate Counted(s: State) {
    && s.f.total == |s.at|
    && (forall w :: w in s.at ==> w < s.next)
    && s.live <= s.at.Keys
  }

  /** The idle deque and both kill lists hold exactly the workers in their custody. */
  ghost predicate Lists(s: State) {
    && Owns(WorkerIds(s.f.idle), s.at, Idle)
    && Owns(SweepQueue(s), s.at, Swept)
    && Owns(StopQueue(s), s.at, Doomed)
  }

  /** Whatever is about to be un-counted has been killed. */
  ghost predicate KilledFirst(s: State) {
    && (forall w :: w in s.at && s.at[w].ReleaseKilled? ==> w !in s.live)
    && (s.sweep.SweepKilling? ==> s.sweep.queue != [] && (s.sweep.killed ==> s.sweep.queue[0] !in s.live))
    && (s.stop.StopKilling? ==> s.stop.queue != [] && (s.stop.killed ==> s.stop.queue[0] !in s.live))
  }

  function LastError(log: seq<Attempt>): Option<string> {
    if log != [] && log[|log| - 1].SpawnFailed? then Some(log[|log| - 1].error) else None
  }

  /** The bookkeeping counters count what they are meant to count. */
  ghost predicate Counters(s: State) {
    && s.f.waiting == |s.parked| + |s.notified| + |s.leaving|
    && s.f.pendingGrows == s.grows + (if s.lock.Growing? then 1 else 0)
    && s.f.spawnError == LastError(s.log)
  }

  ghost predicate Clocks(s: State) {
    && ByAge(s.f.idle)
    && (forall i :: 0 <= i < |s.f.idle| ==> s.f.idle[i].becameIdleAt <= s.now)
    && s.f.lastReleaseAt <= s.now
  }

  function Bound(cfg: Config): int {
    Max(0, Max(cfg.minWorkers, cfg.maxWorkers))
  }

  ghost predicate Capacity(cfg: Config, s: State) {
    && s.f.total <= Bound(cfg)
    && (s.lock.Growing? ==> s.f.total < cfg.maxWorkers)
    && (s.lock.Replenishing? ==> s.f.total < cfg.minWorkers || s.f.total < cfg.maxWorkers)
    && (s.lock.Starting? ==> s.lock.left > 0 && s.f.total + s.lock.left == cfg.minWorkers)
  }

  ghost predicate ShutdownOrder(s: State) {
    && (s.f.stopped ==> s.sweep.NoSweep? && !s.lock.Starting?)
    && (!s.stop.NotStopping? || s.closed ==> s.f.stopped)
    && (s.stop.StopKilling? || s.stop.Stopped? ==> s.closed)
    && (s.closed ==> s.f.idle == [] && s.lock.Free? && s.parked == [])
    && (s.lock.Starting? ==> s.sweep.NoSweep?)
  }

  ghost predicate Custody(s: State) {
    Counted(s) && Lists(s) && KilledFirst(s)
  }

  ghost predicate Rest(cfg: Config, s: State) {
    Counters(s) && Clocks(s) && Capacity(cfg, s) && ShutdownOrder(s)
  }

  ghost predicate Inv(cfg: Config, s: State) {
    Custody(s) && Rest(cfg, s)
  }
}

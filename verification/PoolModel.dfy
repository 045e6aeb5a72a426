/** The worker pool as a labelled transition system.

    One label is one stretch of code between two suspension points of one of the
    pool's tasks: requests in acquire(), background grows, background releases, the
    scale-down sweep, start() and stop(). The pool's own fields are in `Fields`;
    everything else in `State` is the environment the fields are supposed to
    describe: which processes live, who has custody of each counted worker, who
    holds the condition's lock, who is parked on it, and a log of spawn attempts. */
module PoolModel {
  import opened Wrappers
  import opened IdleQueue

  datatype Config = Config(minWorkers: int, maxWorkers: int, idleTimeout: real, scaleToZero: real)

  /** The instance variables of WorkerPool that its tasks share. */
  datatype Fields = Fields(
    idle: seq<Worker>, total: int, waiting: int, pendingGrows: int,
    spawnError: Option<string>, lastReleaseAt: real, stopped: bool)

  /** Who answers for a worker that the pool still counts. `Abandoned` marks a worker
      whose killing or counting task was cancelled before it finished. */
  datatype Place =
    | Idle
    | Out(call: nat)
    | ReleaseQueued   // release() scheduled, its kill not yet sent
    | ReleaseKilled   // killed by release(), which now waits for the lock
    | Swept           // on the sweep's kill list
    | Doomed          // on stop()'s kill list
    | Abandoned

  /** Who holds the lock across an await; only a spawn does that. */
  datatype Holder = Free | Starting(left: nat) | Growing | Replenishing

  datatype Sweep = NoSweep | Sleeping | SweepKilling(queue: seq<nat>, killed: bool)

  datatype Stop =
    | NotStopping
    | CancellingSweep
    | Draining(releases: set<nat>)          // the releases it waits for
    | StopKilling(queue: seq<nat>, killed: bool)
    | Stopped

  /** A request parked on, or woken from, the condition; `since` is the length of the
      attempt log when it parked. */
  datatype Ticket = Ticket(call: nat, since: nat)

  datatype Attempt = Spawned | SpawnFailed(error: string)

  datatype State = State(
    f: Fields, live: set<nat>, at: map<nat, Place>, next: nat,
    lock: Holder, grows: nat,
    parked: seq<Ticket>, notified: seq<Ticket>, leaving: seq<nat>,
    sweep: Sweep, stop: Stop, closed: bool, log: seq<Attempt>, now: real)

  datatype Label =
    | Tick(to: real)
    | WorkerDies(worker: nat)
    | StartSpawned
    | StartAborted
    | AcquireEnter(call: nat)
    | AcquireResume(index: nat)
    | CancelParked(index: nat)
    | CancelNotified(index: nat)
    | CancelledLeaves(index: nat, relays: bool)
    | GrowBegins
    | SpawnSucceeds
    | SpawnFails(error: string)
    | SpawnCancelled
    | GrowCancelled
    | ReleaseScheduled(worker: nat)
    | ReleaseKills(worker: nat)
    | ReleaseCounts(worker: nat)
    | ReleaseCancelled(worker: nat)
    | SweepSelects
    | SweepKills
    | SweepCounts
    | StopBegins
    | StopSnapshots
    | StopCloses
    | StopKills
    | StopCounts
    | StopInterrupted

  /** What one turn of the acquire loop gives its caller. */
  datatype Answer = Got(worker: Worker) | Waits | ShuttingDown | SpawnError(error: string)

  datatype Turn = Turn(next: State, answer: Answer)

  function RemoveAt<T>(s: seq<T>, i: nat): seq<T>
    requires i < |s|
  {
    s[..i] + s[i + 1..]
  }

  function Relabel(at: map<nat, Place>, ids: seq<nat>, place: Place): map<nat, Place> {
    map w | w in at :: if w in ids then place else at[w]
  }

  function ToSet(ids: seq<nat>): set<nat> {
    set w | w in ids
  }

  /** start() takes the lock at once; with nothing to pre-warm it is already over. */
  function Initial(cfg: Config, now: real): State {
    State(
      Fields([], 0, 0, 0, None, now, false), {}, map[], 0,
      if cfg.minWorkers <= 0 then Free else Starting(cfg.minWorkers), 0,
      [], [], [],
      if cfg.minWorkers <= 0 then Sleeping else NoSweep, NotStopping, false, [], now)
  }

  // ---- the condition variable ----

  /** Condition.notify(): the longest-parked waiter wakes. */
  function Notify(s: State): State {
    if s.parked == [] then s
    else s.(parked := s.parked[1..], notified := s.notified + [s.parked[0]])
  }

  function NotifyAll(s: State): State {
    s.(parked := [], notified := s.notified + s.parked)
  }

  // ---- spawning ----

  /** A new worker at the back of the queue. */
  function Appended(s: State): State {
    s.(f := s.f.(idle := s.f.idle + [Worker(s.next, s.now)], total := s.f.total + 1, spawnError := None),
       live := s.live + {s.next}, at := s.at[s.next := Idle], next := s.next + 1, log := s.log + [Spawned])
  }

  /** _spawn_and_add_idle_locked once the process has started. */
  function AddWorker(s: State): State {
    Notify(Appended(s))
  }

  /** The except branch of _try_spawn_and_add_idle_locked. */
  function RecordFailure(s: State, error: string): State {
    Notify(s.(f := s.f.(spawnError := Some(error)), log := s.log + [SpawnFailed(error)]))
  }

  /** A grow or a replenishing release lets go of the lock; a grow also un-counts itself. */
  function EndSpawn(s: State): State {
    if s.lock.Growing? then s.(lock := Free, f := s.f.(pendingGrows := s.f.pendingGrows - 1))
    else s.(lock := Free)
  }

  // ---- acquire ----

  /** No live worker is idle: ask for one more if the cap allows, then park. */
  function Park(cfg: Config, s: State, call: nat): State {
    var t := if s.f.total < cfg.maxWorkers then
               s.(f := s.f.(pendingGrows := s.f.pendingGrows + 1), grows := s.grows + 1)
             else s;
    t.(f := t.f.(waiting := t.f.waiting + 1), parked := t.parked + [Ticket(call, |t.log|)])
  }

  /** Dead workers at the front are dropped from the queue and from the count. */
  function DropDead(s: State): State {
    var d := DeadPrefix(s.f.idle, s.live);
    s.(f := s.f.(idle := s.f.idle[d..], total := s.f.total - d), at := s.at - ToSet(WorkerIds(s.f.idle[..d])))
  }

  /** One turn of the `while True` loop in _acquire, from its top. */
  function LoopTop(cfg: Config, s: State, call: nat): Turn {
    if s.f.stopped then Turn(s, ShuttingDown)
    else
      var t := DropDead(s);
      if t.f.idle != [] then
        var w := t.f.idle[0];
        Turn(t.(f := t.f.(idle := t.f.idle[1..]), at := t.at[w.id := Out(call)]), Got(w))
      else Turn(Park(cfg, t, call), Waits)
  }

  /** A woken waiter: give up on a recorded spawn failure, or take another turn. */
  function Wake(cfg: Config, s: State, index: nat): Turn
    requires index < |s.notified|
  {
    var t := s.(f := s.f.(waiting := s.f.waiting - 1), notified := RemoveAt(s.notified, index));
    if t.f.idle == [] && t.f.pendingGrows == 0 && t.f.spawnError.Some? then
      Turn(t, SpawnError(t.f.spawnError.value))
    else LoopTop(cfg, t, s.notified[index].call)
  }

  // ---- release ----

  function Replenishes(cfg: Config, f: Fields): bool {
    (f.total < cfg.minWorkers || (f.waiting > 0 && f.total < cfg.maxWorkers)) && !f.stopped
  }

  function CountRelease(cfg: Config, s: State, w: nat): State {
    var f := s.f.(total := s.f.total - 1, lastReleaseAt := s.now);
    s.(f := f, at := s.at - {w}, lock := if Replenishes(cfg, f) then Replenishing else Free)
  }

  // ---- the sweep ----

  predicate Drains(cfg: Config, f: Fields, now: real) {
    cfg.scaleToZero > 0.0 && f.total == |f.idle| && now - f.lastReleaseAt > cfg.scaleToZero
  }

  function Allowance(cfg: Config, f: Fields, now: real): int {
    if Drains(cfg, f, now) then |f.idle| else Max(0, |f.idle| - cfg.minWorkers)
  }

  function KillList(cfg: Config, f: Fields, now: real): seq<Worker> {
    Condemned(f.idle, Allowance(cfg, f, now), Drains(cfg, f, now), now, cfg.idleTimeout)
  }

  function Kept(cfg: Config, f: Fields, now: real): seq<Worker> {
    IdleQueue.Survivors(f.idle, Allowance(cfg, f, now), Drains(cfg, f, now), now, cfg.idleTimeout)
  }

  function NextKill(queue: seq<nat>): Sweep {
    if queue == [] then Sleeping else SweepKilling(queue, false)
  }

  function Select(cfg: Config, s: State): State {
    var kills := WorkerIds(KillList(cfg, s.f, s.now));
    s.(f := s.f.(idle := Kept(cfg, s.f, s.now)), at := Relabel(s.at, kills, Swept), sweep := NextKill(kills))
  }

  /** The decrement after one kill, for the sweep and for stop() alike. */
  function Uncount(s: State, w: nat): State {
    s.(f := s.f.(total := s.f.total - 1), at := s.at - {w})
  }

  // ---- stop ----

  function NextDoomed(queue: seq<nat>): Stop {
    if queue == [] then Stopped else StopKilling(queue, false)
  }

  function BeginStop(s: State): State {
    var left := if s.sweep.SweepKilling? then s.sweep.queue else [];
    s.(f := s.f.(stopped := true), sweep := NoSweep, stop := CancellingSweep, at := Relabel(s.at, left, Abandoned))
  }

  predicate Releasing(at: map<nat, Place>, w: nat) {
    w in at && (at[w].ReleaseQueued? || at[w].ReleaseKilled?)
  }

  function Emptied(s: State): State {
    var doomed := WorkerIds(s.f.idle);
    s.(f := s.f.(idle := []), at := Relabel(s.at, doomed, Doomed), stop := NextDoomed(doomed), closed := true)
  }

  function Close(s: State): State {
    NotifyAll(Emptied(s))
  }

  function Interrupt(s: State): State {
    var left := if s.stop.StopKilling? then s.stop.queue else [];
    s.(stop := NotStopping, at := Relabel(s.at, left, Abandoned))
  }

  // ---- the transition system ----

  predicate Enabled(cfg: Config, s: State, l: Label) {
    match l
    case Tick(to) => s.now <= to
    case WorkerDies(w) => w in s.live
    case StartSpawned => s.lock.Starting? && s.lock.left > 0
    case StartAborted => s.lock.Starting?
    case AcquireEnter(_) => s.lock.Free?
    case AcquireResume(i) => s.lock.Free? && i < |s.notified|
    case CancelParked(i) => i < |s.parked|
    case CancelNotified(i) => i < |s.notified|
    case CancelledLeaves(i, _) => s.lock.Free? && i < |s.leaving|
    case GrowBegins => s.lock.Free? && s.grows > 0
    case SpawnSucceeds => s.lock.Growing? || s.lock.Replenishing?
    case SpawnFails(_) => s.lock.Growing? || s.lock.Replenishing?
    case SpawnCancelled => (s.lock.Growing? || s.lock.Replenishing?) && s.f.stopped
    case GrowCancelled => s.grows > 0 && s.f.stopped
    case ReleaseScheduled(w) => w in s.at && s.at[w].Out?
    case ReleaseKills(w) => w in s.at && s.at[w].ReleaseQueued?
    case ReleaseCounts(w) => s.lock.Free? && w in s.at && s.at[w].ReleaseKilled?
    case ReleaseCancelled(w) => Releasing(s.at, w) && s.f.stopped
    case SweepSelects => s.lock.Free? && s.sweep.Sleeping?
    case SweepKills => s.sweep.SweepKilling? && s.sweep.queue != [] && !s.sweep.killed
    case SweepCounts => s.lock.Free? && s.sweep.SweepKilling? && s.sweep.queue != [] && s.sweep.killed
    case StopBegins => !s.lock.Starting? && (s.stop.NotStopping? || s.stop.Stopped?)
    case StopSnapshots => s.stop.CancellingSweep?
    case StopCloses => s.lock.Free? && s.stop.Draining? && forall w :: w in s.stop.releases ==> !Releasing(s.at, w)
    case StopKills => s.stop.StopKilling? && s.stop.queue != [] && !s.stop.killed
    case StopCounts => s.lock.Free? && s.stop.StopKilling? && s.stop.queue != [] && s.stop.killed
    case StopInterrupted => s.stop.Draining? || s.stop.StopKilling?
  }

  function Step(cfg: Config, s: State, l: Label): State
    requires Enabled(cfg, s, l)
  {
    match l
    case Tick(to) => s.(now := to)
    case WorkerDies(w) => s.(live := s.live - {w})
    case StartSpawned =>
      var t := AddWorker(s);
      if s.lock.left == 1 then t.(lock := Free, sweep := Sleeping) else t.(lock := Starting(s.lock.left - 1))
    case StartAborted => s.(lock := Free)
    case AcquireEnter(call) => LoopTop(cfg, s, call).next
    case AcquireResume(i) => Wake(cfg, s, i).next
    case CancelParked(i) => s.(parked := RemoveAt(s.parked, i), leaving := s.leaving + [s.parked[i].call])
    case CancelNotified(i) => s.(notified := RemoveAt(s.notified, i), leaving := s.leaving + [s.notified[i].call])
    case CancelledLeaves(i, relays) =>
      var t := s.(f := s.f.(waiting := s.f.waiting - 1), leaving := RemoveAt(s.leaving, i));
      if relays then Notify(t) else t
    case GrowBegins =>
      var t := s.(grows := s.grows - 1);
      if s.f.total >= cfg.maxWorkers || s.f.stopped then t.(f := t.f.(pendingGrows := t.f.pendingGrows - 1))
      else t.(lock := Growing)
    case SpawnSucceeds => EndSpawn(AddWorker(s))
    case SpawnFails(error) => EndSpawn(RecordFailure(s, error))
    case SpawnCancelled => EndSpawn(s)
    case GrowCancelled => s.(grows := s.grows - 1, f := s.f.(pendingGrows := s.f.pendingGrows - 1))
    case ReleaseScheduled(w) => s.(at := s.at[w := ReleaseQueued])
    case ReleaseKills(w) => s.(live := s.live - {w}, at := s.at[w := ReleaseKilled])
    case ReleaseCounts(w) => CountRelease(cfg, s, w)
    case ReleaseCancelled(w) => s.(at := s.at[w := Abandoned])
    case SweepSelects => Select(cfg, s)
    case SweepKills => s.(live := s.live - {s.sweep.queue[0]}, sweep := s.sweep.(killed := true))
    case SweepCounts => Uncount(s, s.sweep.queue[0]).(sweep := NextKill(s.sweep.queue[1..]))
    case StopBegins => BeginStop(s)
    case StopSnapshots => s.(stop := Draining(set w | w in s.at && Releasing(s.at, w)))
    case StopCloses => Close(s)
    case StopKills => s.(live := s.live - {s.stop.queue[0]}, stop := s.stop.(killed := true))
    case StopCounts => Uncount(s, s.stop.queue[0]).(stop := NextDoomed(s.stop.queue[1..]))
    case StopInterrupted => Interrupt(s)
  }

  /** The steps that answer a request. */
  predicate Asks(l: Label) {
    l.AcquireEnter? || l.AcquireResume?
  }

  /** The steps that add workers or move waiters, and those of the world around. */
  predicate Supplies(l: Label) {
    l.Tick? || l.WorkerDies? || l.StartSpawned? || l.StartAborted? || l.CancelParked? || l.CancelNotified?
    || l.CancelledLeaves?
    || l.GrowBegins? || l.SpawnSucceeds? || l.SpawnFails? || l.SpawnCancelled? || l.GrowCancelled?
  }

  /** The steps by which workers go: releases, the sweep and stop(). */
  predicate Retires(l: Label) {
    !Asks(l) && !Supplies(l)
  }

  /** The answer, if any, that the step gives to a request. */
  function AnswerOf(cfg: Config, s: State, l: Label): Option<Answer>
    requires Enabled(cfg, s, l)
  {
    match l
    case AcquireEnter(call) => Some(LoopTop(cfg, s, call).answer)
    case AcquireResume(i) => Some(Wake(cfg, s, i).answer)
    case _ => None
  }

  /** The caller whose request the step answers. */
  function CallerOf(s: State, l: Label): nat
    requires l.AcquireEnter? || (l.AcquireResume? && l.index < |s.notified|)
  {
    if l.AcquireEnter? then l.call else s.notified[l.index].call
  }

  // ---- runs ----

  /** `labels` is a run from `s`. */
  predicate Runs(cfg: Config, s: State, labels: seq<Label>)
    decreases |labels|
  {
    labels == [] || (Enabled(cfg, s, labels[0]) && Runs(cfg, Step(cfg, s, labels[0]), labels[1..]))
  }

  function After(cfg: Config, s: State, labels: seq<Label>): State
    requires Runs(cfg, s, labels)
    decreases |labels|
  {
    if labels == [] then s else After(cfg, Step(cfg, s, labels[0]), labels[1..])
  }

  ghost predicate Reachable(cfg: Config, s: State) {
    exists labels, now :: Runs(cfg, Initial(cfg, now), labels) && After(cfg, Initial(cfg, now), labels) == s
  }
}

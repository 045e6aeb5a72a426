/** Every step preserves the invariant, one lemma per kind of step. */
module PoolSteps {
  import opened IdleQueue
  import opened PoolModel
  import opened Ownership
  import opened PoolInvariant

  // ---- custody ----

  lemma AddWorkerCustody(s: State)
    requires Custody(s)
    ensures Custody(AddWorker(s))
  {
    var at := s.at[s.next := Idle];
    AddOne(s.at, s.next, Idle);
    Adopt(WorkerIds(s.f.idle), s.at, s.next, Idle);
    assert WorkerIds(s.f.idle + [Worker(s.next, s.now)]) == WorkerIds(s.f.idle) + [s.next];
    Unaffected(SweepQueue(s), s.at, at, Swept);
    Unaffected(StopQueue(s), s.at, at, Doomed);
  }

  lemma DropDeadKeepsLive(s: State)
    requires Counted(s)
    ensures forall w :: w in s.live ==> w in s.at && w !in WorkerIds(s.f.idle)[..DeadPrefix(s.f.idle, s.live)]
  {
    var d := DeadPrefix(s.f.idle, s.live);
    assert forall i :: 0 <= i < d ==> WorkerIds(s.f.idle)[..d][i] == s.f.idle[i].id;
  }

  lemma DropDeadCustody(s: State)
    requires Custody(s)
    ensures Custody(DropDead(s))
    ensures DropDead(s).f.total <= s.f.total
  {
    var d := DeadPrefix(s.f.idle, s.live);
    var ids := WorkerIds(s.f.idle);
    var at := s.at - ToSet(ids[..d]);
    assert WorkerIds(s.f.idle[..d]) == ids[..d];
    assert WorkerIds(s.f.idle[d..]) == ids[d..];
    DropDeadKeepsLive(s);
    DropFront(ids, d, s.at, Idle);
    SplitDistinct(ids, d);
    Unaffected(SweepQueue(s), s.at, at, Swept);
    Unaffected(StopQueue(s), s.at, at, Doomed);
  }

  lemma TakeFrontCustody(s: State, call: nat)
    requires Custody(s) && s.f.idle != []
    ensures Custody(s.(f := s.f.(idle := s.f.idle[1..]), at := s.at[s.f.idle[0].id := Out(call)]))
  {
    var ids := WorkerIds(s.f.idle);
    var at := s.at[ids[0] := Out(call)];
    assert WorkerIds(s.f.idle[1..]) == ids[1..];
    MoveFirst(ids, s.at, Idle, Out(call));
    SameKeys(s.at, at);
    Unaffected(SweepQueue(s), s.at, at, Swept);
    Unaffected(StopQueue(s), s.at, at, Doomed);
  }

  /** One worker moves between places that no list owns. */
  lemma MoveCustody(s: State, w: nat, place: Place)
    requires Custody(s) && w in s.at && (s.at[w].Out? || s.at[w].ReleaseQueued? || s.at[w].ReleaseKilled?)
    requires place.ReleaseQueued? || place.Abandoned? || (place.ReleaseKilled? && w !in s.live)
    ensures Custody(s.(at := s.at[w := place]))
  {
    var at := s.at[w := place];
    SameKeys(s.at, at);
    Unaffected(WorkerIds(s.f.idle), s.at, at, Idle);
    Unaffected(SweepQueue(s), s.at, at, Swept);
    Unaffected(StopQueue(s), s.at, at, Doomed);
  }

  lemma UncountReleasedCustody(s: State, w: nat)
    requires Custody(s) && w in s.at && s.at[w].ReleaseKilled?
    ensures Custody(Uncount(s, w))
  {
    RemoveOne(s.at, w);
    Unaffected(WorkerIds(s.f.idle), s.at, s.at - {w}, Idle);
    Unaffected(SweepQueue(s), s.at, s.at - {w}, Swept);
    Unaffected(StopQueue(s), s.at, s.at - {w}, Doomed);
  }

  lemma SweepCountsCustody(s: State)
    requires Custody(s) && s.sweep.SweepKilling? && s.sweep.killed
    ensures Custody(Uncount(s, s.sweep.queue[0]).(sweep := NextKill(s.sweep.queue[1..])))
  {
    var q := s.sweep.queue;
    var at := s.at - {q[0]};
    RemoveOne(s.at, q[0]);
    DropFront(q, 1, s.at, Swept);
    assert ToSet(q[..1]) == {q[0]};
    Unaffected(WorkerIds(s.f.idle), s.at, at, Idle);
    Unaffected(StopQueue(s), s.at, at, Doomed);
  }

  lemma StopCountsCustody(s: State)
    requires Custody(s) && s.stop.StopKilling? && s.stop.killed
    ensures Custody(Uncount(s, s.stop.queue[0]).(stop := NextDoomed(s.stop.queue[1..])))
  {
    var q := s.stop.queue;
    var at := s.at - {q[0]};
    RemoveOne(s.at, q[0]);
    DropFront(q, 1, s.at, Doomed);
    assert ToSet(q[..1]) == {q[0]};
    Unaffected(WorkerIds(s.f.idle), s.at, at, Idle);
    Unaffected(SweepQueue(s), s.at, at, Swept);
  }

  lemma SelectLists(cfg: Config, s: State)
    requires Custody(s) && ByAge(s.f.idle) && s.sweep.Sleeping?
    ensures var kills := WorkerIds(KillList(cfg, s.f, s.now));
            var at := Relabel(s.at, kills, Swept);
            && (forall w :: w in kills ==> w in s.at && s.at[w].Idle?)
            && Owns(kills, at, Swept) && Owns(WorkerIds(Kept(cfg, s.f, s.now)), at, Idle)
  {
    SweepTakesPrefix(s.f.idle, Allowance(cfg, s.f, s.now), Drains(cfg, s.f, s.now), s.now, cfg.idleTimeout);
    var k := |KillList(cfg, s.f, s.now)|;
    var ids := WorkerIds(s.f.idle);
    assert WorkerIds(s.f.idle[..k]) == ids[..k];
    assert WorkerIds(s.f.idle[k..]) == ids[k..];
    MoveFront(ids, k, s.at, Idle, Swept);
    SplitDistinct(ids, k);
  }

  lemma SelectCustody(cfg: Config, s: State)
    requires Custody(s) && s.sweep.Sleeping? && ByAge(s.f.idle)
    ensures Custody(Select(cfg, s))
  {
    var at := Relabel(s.at, WorkerIds(KillList(cfg, s.f, s.now)), Swept);
    SelectLists(cfg, s);
    SameKeys(s.at, at);
    Unaffected(StopQueue(s), s.at, at, Doomed);
  }

  lemma CloseCustody(s: State)
    requires Custody(s) && !s.stop.StopKilling?
    ensures Custody(Close(s))
  {
    var ids := WorkerIds(s.f.idle);
    var at := Relabel(s.at, ids, Doomed);
    assert ids[..|ids|] == ids && ids[|ids|..] == WorkerIds([]);
    MoveFront(ids, |ids|, s.at, Idle, Doomed);
    SameKeys(s.at, at);
    Unaffected(SweepQueue(s), s.at, at, Swept);
  }

  lemma BeginStopCustody(s: State)
    requires Custody(s) && !s.stop.StopKilling?
    ensures Custody(BeginStop(s))
  {
    var at := Relabel(s.at, SweepQueue(s), Abandoned);
    SameKeys(s.at, at);
    Unaffected(WorkerIds(s.f.idle), s.at, at, Idle);
    assert Owns([], at, Swept);
    Unaffected(StopQueue(s), s.at, at, Doomed);
  }

  lemma InterruptCustody(s: State)
    requires Custody(s)
    ensures Custody(Interrupt(s))
  {
    var at := Relabel(s.at, StopQueue(s), Abandoned);
    SameKeys(s.at, at);
    Unaffected(WorkerIds(s.f.idle), s.at, at, Idle);
    Unaffected(SweepQueue(s), s.at, at, Swept);
    assert Owns([], at, Doomed);
  }

  lemma FewerLiveCustody(s: State, gone: set<nat>)
    requires Custody(s)
    ensures Custody(s.(live := s.live - gone))
  {
  }

  lemma SameCustody(s: State, t: State)
    requires Custody(s)
    requires t.f.idle == s.f.idle && t.f.total == s.f.total && t.at == s.at && t.live == s.live && t.next == s.next
    requires t.sweep == s.sweep && t.stop == s.stop
    ensures Custody(t)
  {
  }

  // ---- the acquire loop ----

  lemma DropDeadKeeps(cfg: Config, s: State)
    requires Inv(cfg, s) && s.lock.Free? && !s.f.stopped
    ensures Inv(cfg, DropDead(s))
  {
    DropDeadCustody(s);
  }

  lemma TakeFrontKeeps(cfg: Config, s: State, call: nat)
    requires Inv(cfg, s) && s.f.idle != []
    ensures Inv(cfg, s.(f := s.f.(idle := s.f.idle[1..]), at := s.at[s.f.idle[0].id := Out(call)]))
  {
    TakeFrontCustody(s, call);
  }

  lemma ParkKeeps(cfg: Config, s: State, call: nat)
    requires Inv(cfg, s) && s.lock.Free? && !s.f.stopped
    ensures Inv(cfg, Park(cfg, s, call))
  {
    SameCustody(s, Park(cfg, s, call));
  }

  lemma LoopTopKeeps(cfg: Config, s: State, call: nat)
    requires Inv(cfg, s) && s.lock.Free?
    ensures Inv(cfg, LoopTop(cfg, s, call).next)
  {
    if !s.f.stopped {
      DropDeadKeeps(cfg, s);
      var t := DropDead(s);
      if t.f.idle != [] { TakeFrontKeeps(cfg, t, call); } else { ParkKeeps(cfg, t, call); }
    }
  }

  /** The waiter that has just been given the lock no longer counts as waiting. */
  function Woken(s: State, i: nat): State
    requires i < |s.notified|
  {
    s.(f := s.f.(waiting := s.f.waiting - 1), notified := RemoveAt(s.notified, i))
  }

  lemma WokenKeeps(cfg: Config, s: State, i: nat)
    requires Inv(cfg, s) && i < |s.notified|
    ensures Inv(cfg, Woken(s, i))
  {
    SameCustody(s, Woken(s, i));
  }

  lemma WakeKeeps(cfg: Config, s: State, i: nat)
    requires Inv(cfg, s) && s.lock.Free? && i < |s.notified|
    ensures Inv(cfg, Wake(cfg, s, i).next)
  {
    WokenKeeps(cfg, s, i);
    LoopTopKeeps(cfg, Woken(s, i), s.notified[i].call);
  }

  lemma SelectKeeps(cfg: Config, s: State)
    requires Inv(cfg, s) && s.sweep.Sleeping? && s.lock.Free?
    ensures Inv(cfg, Select(cfg, s))
  {
    SelectCustody(cfg, s);
    SweepTakesPrefix(s.f.idle, Allowance(cfg, s.f, s.now), Drains(cfg, s.f, s.now), s.now, cfg.idleTimeout);
  }

  lemma PreWarmRest(cfg: Config, s: State)
    requires Rest(cfg, s) && s.lock.Starting?
    ensures Rest(cfg, Step(cfg, s, StartSpawned))
  {
  }

  lemma GrowRest(cfg: Config, s: State)
    requires Rest(cfg, s) && (s.lock.Growing? || s.lock.Replenishing?)
    ensures Rest(cfg, EndSpawn(AddWorker(s)))
  {
  }

  lemma SpawnRest(cfg: Config, s: State)
    requires Rest(cfg, s) && !s.lock.Free?
    ensures Rest(cfg, if s.lock.Starting? then Step(cfg, s, StartSpawned) else EndSpawn(AddWorker(s)))
  {
    if s.lock.Starting? { PreWarmRest(cfg, s); } else { GrowRest(cfg, s); }
  }

  // ---- all steps ----

  lemma ReleaseCustody(cfg: Config, s: State, l: Label)
    requires Custody(s) && Enabled(cfg, s, l)
    requires l.ReleaseScheduled? || l.ReleaseKills? || l.ReleaseCounts? || l.ReleaseCancelled?
    ensures Custody(Step(cfg, s, l))
  {
    match l
    case ReleaseScheduled(w) => MoveCustody(s, w, ReleaseQueued);
    case ReleaseKills(w) =>
      FewerLiveCustody(s, {w});
      MoveCustody(s.(live := s.live - {w}), w, ReleaseKilled);
    case ReleaseCounts(w) => UncountReleasedCustody(s, w);
    case ReleaseCancelled(w) => MoveCustody(s, w, Abandoned);
  }

  lemma KillingCustody(cfg: Config, s: State, l: Label)
    requires Custody(s) && ShutdownOrder(s) && Enabled(cfg, s, l)
    requires l.WorkerDies? || l.SweepKills? || l.SweepCounts? || l.StopKills? || l.StopCounts?
    ensures Custody(Step(cfg, s, l))
  {
    match l
    case WorkerDies(w) => FewerLiveCustody(s, {w});
    case SweepKills => FewerLiveCustody(s, {s.sweep.queue[0]});
    case SweepCounts => SweepCountsCustody(s);
    case StopKills => FewerLiveCustody(s, {s.stop.queue[0]});
    case StopCounts => StopCountsCustody(s);
  }

  lemma StopListsCustody(cfg: Config, s: State, l: Label)
    requires Custody(s) && ShutdownOrder(s) && Enabled(cfg, s, l) && (l.StopBegins? || l.StopCloses?)
    ensures Custody(Step(cfg, s, l))
  {
    if l.StopBegins? { BeginStopCustody(s); } else { CloseCustody(s); }
  }

  lemma StopWaitsCustody(cfg: Config, s: State, l: Label)
    requires Custody(s) && Enabled(cfg, s, l) && (l.StopSnapshots? || l.StopInterrupted?)
    ensures Custody(Step(cfg, s, l))
  {
    if l.StopInterrupted? { InterruptCustody(s); }
  }

  lemma StopCustody(cfg: Config, s: State, l: Label)
    requires Custody(s) && ShutdownOrder(s) && Enabled(cfg, s, l)
    requires l.StopBegins? || l.StopSnapshots? || l.StopCloses? || l.StopInterrupted?
    ensures Custody(Step(cfg, s, l))
  {
    if l.StopBegins? || l.StopCloses? { StopListsCustody(cfg, s, l); } else { StopWaitsCustody(cfg, s, l); }
  }

  lemma SupplyCustody(cfg: Config, s: State, l: Label)
    requires Custody(s) && Enabled(cfg, s, l) && Supplies(l) && !Composite(l) && !l.WorkerDies?
    ensures Custody(Step(cfg, s, l))
  {
    SameCustody(s, Step(cfg, s, l));
  }

  lemma CustodyStep(cfg: Config, s: State, l: Label)
    requires Custody(s) && ShutdownOrder(s) && Enabled(cfg, s, l) && !Composite(l)
    ensures Custody(Step(cfg, s, l))
  {
    if l.ReleaseScheduled? || l.ReleaseKills? || l.ReleaseCounts? || l.ReleaseCancelled? { ReleaseCustody(cfg, s, l); }
    else if l.WorkerDies? || l.SweepKills? || l.SweepCounts? || l.StopKills? || l.StopCounts?
      { KillingCustody(cfg, s, l); }
    else if Supplies(l) { SupplyCustody(cfg, s, l); }
    else { StopCustody(cfg, s, l); }
  }

  /** The steps that have lemmas of their own. */
  predicate Composite(l: Label) {
    l.StartSpawned? || l.SpawnSucceeds? || l.AcquireEnter? || l.AcquireResume? || l.SweepSelects?
  }

  predicate MovesCounters(l: Label) {
    l.CancelParked? || l.CancelNotified? || l.CancelledLeaves? || l.GrowBegins? || l.SpawnFails? || l.SpawnCancelled?
    || l.GrowCancelled? || l.StopCloses?
  }

  lemma CountersStep(cfg: Config, s: State, l: Label)
    requires Counters(s) && Enabled(cfg, s, l) && MovesCounters(l)
    ensures Counters(Step(cfg, s, l))
  {
  }

  lemma CountersFrameWhenSupplying(cfg: Config, s: State, l: Label)
    requires Counters(s) && Enabled(cfg, s, l) && !Composite(l) && !MovesCounters(l)
    requires Supplies(l)
    ensures Counters(Step(cfg, s, l))
  {
  }

  lemma CountersFrameWhenRetiring(cfg: Config, s: State, l: Label)
    requires Counters(s) && Enabled(cfg, s, l) && !Composite(l) && !MovesCounters(l)
    requires Retires(l)
    ensures Counters(Step(cfg, s, l))
  {
  }

  lemma CountersFrame(cfg: Config, s: State, l: Label)
    requires Counters(s) && Enabled(cfg, s, l) && !Composite(l) && !MovesCounters(l)
    ensures Counters(Step(cfg, s, l))
  {
    if Supplies(l) { CountersFrameWhenSupplying(cfg, s, l); } else { CountersFrameWhenRetiring(cfg, s, l); }
  }

  lemma ClocksStepWhenSupplying(cfg: Config, s: State, l: Label)
    requires Clocks(s) && Enabled(cfg, s, l) && !Composite(l)
    requires Supplies(l)
    ensures Clocks(Step(cfg, s, l))
  {
  }

  lemma ClocksStepWhenRetiring(cfg: Config, s: State, l: Label)
    requires Clocks(s) && Enabled(cfg, s, l) && !Composite(l)
    requires Retires(l)
    ensures Clocks(Step(cfg, s, l))
  {
  }

  lemma ClocksStep(cfg: Config, s: State, l: Label)
    requires Clocks(s) && Enabled(cfg, s, l) && !Composite(l)
    ensures Clocks(Step(cfg, s, l))
  {
    if Supplies(l) { ClocksStepWhenSupplying(cfg, s, l); } else { ClocksStepWhenRetiring(cfg, s, l); }
  }

  lemma CapacityStepWhenSupplying(cfg: Config, s: State, l: Label)
    requires Capacity(cfg, s) && Enabled(cfg, s, l) && !Composite(l)
    requires Supplies(l)
    ensures Capacity(cfg, Step(cfg, s, l))
  {
  }

  lemma CapacityStepWhenRetiring(cfg: Config, s: State, l: Label)
    requires Capacity(cfg, s) && Enabled(cfg, s, l) && !Composite(l)
    requires Retires(l)
    ensures Capacity(cfg, Step(cfg, s, l))
  {
  }

  lemma CapacityStep(cfg: Config, s: State, l: Label)
    requires Capacity(cfg, s) && Enabled(cfg, s, l) && !Composite(l)
    ensures Capacity(cfg, Step(cfg, s, l))
  {
    if Supplies(l) { CapacityStepWhenSupplying(cfg, s, l); } else { CapacityStepWhenRetiring(cfg, s, l); }
  }

  lemma ShutdownStepWhenSupplying(cfg: Config, s: State, l: Label)
    requires ShutdownOrder(s) && Enabled(cfg, s, l) && !Composite(l)
    requires Supplies(l)
    ensures ShutdownOrder(Step(cfg, s, l))
  {
  }

  lemma ShutdownStepWhenRetiring(cfg: Config, s: State, l: Label)
    requires ShutdownOrder(s) && Enabled(cfg, s, l) && !Composite(l)
    requires Retires(l)
    ensures ShutdownOrder(Step(cfg, s, l))
  {
  }

  lemma ShutdownStep(cfg: Config, s: State, l: Label)
    requires ShutdownOrder(s) && Enabled(cfg, s, l) && !Composite(l)
    ensures ShutdownOrder(Step(cfg, s, l))
  {
    if Supplies(l) { ShutdownStepWhenSupplying(cfg, s, l); } else { ShutdownStepWhenRetiring(cfg, s, l); }
  }

  lemma SpawnKeeps(cfg: Config, s: State, l: Label)
    requires Inv(cfg, s) && Enabled(cfg, s, l) && (l.StartSpawned? || l.SpawnSucceeds?)
    ensures Inv(cfg, Step(cfg, s, l))
  {
    AddWorkerCustody(s);
    SpawnRest(cfg, s);
    SameCustody(AddWorker(s).(sweep := s.sweep), Step(cfg, s, l).(sweep := s.sweep));
  }

  /** The invariant survives every step of every task. */
  lemma StepKeepsInv(cfg: Config, s: State, l: Label)
    requires Inv(cfg, s) && Enabled(cfg, s, l)
    ensures Inv(cfg, Step(cfg, s, l))
  {
    if l.StartSpawned? || l.SpawnSucceeds? {
      SpawnKeeps(cfg, s, l);
    } else if l.AcquireEnter? {
      LoopTopKeeps(cfg, s, l.call);
    } else if l.AcquireResume? {
      WakeKeeps(cfg, s, l.index);
    } else if l.SweepSelects? {
      SelectKeeps(cfg, s);
    } else {
      CustodyStep(cfg, s, l);
      if MovesCounters(l) { CountersStep(cfg, s, l); } else { CountersFrame(cfg, s, l); }
      ClocksStep(cfg, s, l);
      CapacityStep(cfg, s, l);
      ShutdownStep(cfg, s, l);
    }
  }

  // ---- staying open ----

  lemma OpenStays(cfg: Config, s: State, l: Label)
    requires Enabled(cfg, s, l) && !s.f.stopped && !l.StopBegins?
    ensures !Step(cfg, s, l).f.stopped
  {
    if Asks(l) { AskingKeepsOpen(cfg, s, l); } else { OthersKeepOpen(cfg, s, l); }
  }

  lemma AskingKeepsOpen(cfg: Config, s: State, l: Label)
    requires Enabled(cfg, s, l) && Asks(l)
    ensures Step(cfg, s, l).f.stopped == s.f.stopped
  {
  }

  lemma OthersKeepOpenWhenSupplying(cfg: Config, s: State, l: Label)
    requires Enabled(cfg, s, l) && !Asks(l) && !l.StopBegins?
    requires Supplies(l)
    ensures Step(cfg, s, l).f.stopped == s.f.stopped
  {
  }

  lemma OthersKeepOpenWhenRetiring(cfg: Config, s: State, l: Label)
    requires Enabled(cfg, s, l) && !Asks(l) && !l.StopBegins?
    requires Retires(l)
    ensures Step(cfg, s, l).f.stopped == s.f.stopped
  {
  }

  lemma OthersKeepOpen(cfg: Config, s: State, l: Label)
    requires Enabled(cfg, s, l) && !Asks(l) && !l.StopBegins?
    ensures Step(cfg, s, l).f.stopped == s.f.stopped
  {
    if Supplies(l) { OthersKeepOpenWhenSupplying(cfg, s, l); } else { OthersKeepOpenWhenRetiring(cfg, s, l); }
  }

  lemma InitialInv(cfg: Config, now: real)
    ensures Inv(cfg, Initial(cfg, now))
  {
  }

  lemma {:induction false} RunKeepsInv(cfg: Config, s: State, labels: seq<Label>)
    requires Inv(cfg, s) && Runs(cfg, s, labels)
    ensures Inv(cfg, After(cfg, s, labels))
    decreases |labels|
  {
    if labels != [] {
      StepKeepsInv(cfg, s, labels[0]);
      RunKeepsInv(cfg, Step(cfg, s, labels[0]), labels[1..]);
    }
  }

  lemma ReachableInv(cfg: Config, s: State)
    requires Reachable(cfg, s)
    ensures Inv(cfg, s)
  {
    var labels, now :| Runs(cfg, Initial(cfg, now), labels) && After(cfg, Initial(cfg, now), labels) == s;
    InitialInv(cfg, now);
    RunKeepsInv(cfg, Initial(cfg, now), labels);
  }

  predicate Link(cfg: Config, s: State, l: Label, t: State) {
    Enabled(cfg, s, l) && Step(cfg, s, l) == t
  }

  /** The run `labels` leads from `s` to `t`. */
  predicate Leads(cfg: Config, s: State, labels: seq<Label>, t: State) {
    Runs(cfg, s, labels) && After(cfg, s, labels) == t
  }

  /** A chain of linked states is a run. */
  lemma {:induction false} Chain(cfg: Config, labels: seq<Label>, states: nat -> State, k: nat)
    requires k <= |labels| && forall i: nat :: i < |labels| ==> Link(cfg, states(i), labels[i], states(i + 1))
    ensures Leads(cfg, states(k), labels[k..], states(|labels|))
    decreases |labels| - k
  {
    if k < |labels| {
      assert Link(cfg, states(k), labels[k], states(k + 1));
      assert labels[k..][1..] == labels[k + 1..];
      Chain(cfg, labels, states, k + 1);
    }
  }
}

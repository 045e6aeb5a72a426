/** For which settings the pool keeps its promises. Nothing in the configuration rules
    out max_workers <= 0 or min_workers > max_workers. */
module PoolSettings {
  import opened Wrappers
  import opened IdleQueue
  import opened PoolModel
  import opened Ownership
  import opened PoolInvariant
  import opened PoolSteps
  import opened ReleaseLaw
  import W = WakeUps
  import S = Stranding
  import E = SpawnErrors

  lemma OneMore(cfg: Config, s: State, labels: seq<Label>, t: State, l: Label)
    requires Leads(cfg, s, labels, t) && Enabled(cfg, t, l)
    ensures Leads(cfg, s, labels + [l], Step(cfg, t, l))
  {
    OneStep(cfg, t, l);
    Join(cfg, s, labels, t, [l], Step(cfg, t, l));
  }

  // ---- start() to its end ----

  /** start() holds the lock; everyone spawned so far is idle and alive. */
  ghost predicate PreWarming(cfg: Config, s: State) {
    && Inv(cfg, s) && s.lock.Starting? && !s.f.stopped
    && s.parked == [] && s.notified == [] && s.leaving == [] && s.grows == 0
    && forall w :: w in s.at ==> s.at[w].Idle? && w in s.live
  }

  lemma OneStart(cfg: Config, s: State)
    requires PreWarming(cfg, s)
    ensures var t := Step(cfg, s, StartSpawned);
            && Enabled(cfg, s, StartSpawned)
            && if s.lock.left == 1 then AtRest(cfg, t) && t.f.total == cfg.minWorkers
               else PreWarming(cfg, t) && t.lock.left == s.lock.left - 1
  {
    StepKeepsInv(cfg, s, StartSpawned);
  }

  lemma {:induction false} FinishStart(cfg: Config, s: State) returns (labels: seq<Label>, t: State)
    requires PreWarming(cfg, s)
    ensures Leads(cfg, s, labels, t) && AtRest(cfg, t) && t.f.total == cfg.minWorkers
    ensures forall l :: l in labels ==> l.StartSpawned?
    decreases s.lock.left
  {
    OneStart(cfg, s);
    var u := Step(cfg, s, StartSpawned);
    OneStep(cfg, s, StartSpawned);
    if s.lock.left == 1 {
      labels, t := [StartSpawned], u;
    } else {
      var rest;
      rest, t := FinishStart(cfg, u);
      labels := [StartSpawned] + rest;
      Join(cfg, s, [StartSpawned], u, rest, t);
    }
  }

  /** The run of start() in which every spawn succeeds. */
  lemma StartUp(cfg: Config, now: real) returns (labels: seq<Label>, t: State)
    ensures Leads(cfg, Initial(cfg, now), labels, t) && AtRest(cfg, t) && t.f.total == Max(0, cfg.minWorkers)
    ensures forall l :: l in labels ==> l.StartSpawned?
  {
    InitialInv(cfg, now);
    if cfg.minWorkers <= 0 {
      labels, t := [], Initial(cfg, now);
    } else {
      labels, t := FinishStart(cfg, Initial(cfg, now));
    }
  }

  // ---- every idle worker dies ----

  lemma {:induction false} EveryoneDies(cfg: Config, s: State) returns (labels: seq<Label>, t: State)
    requires Inv(cfg, s) && Calm(s) && forall w :: w in s.at ==> s.at[w].Idle?
    ensures Leads(cfg, s, labels, t) && Inv(cfg, t) && t == s.(live := {})
    ensures forall l :: l in labels ==> l.WorkerDies?
    decreases |s.live|
  {
    if s.live == {} {
      labels, t := [], s;
    } else {
      var w :| w in s.live;
      var u := Step(cfg, s, WorkerDies(w));
      StepKeepsInv(cfg, s, WorkerDies(w));
      OneStep(cfg, s, WorkerDies(w));
      var rest;
      rest, t := EveryoneDies(cfg, u);
      labels := [WorkerDies(w)] + rest;
      Join(cfg, s, [WorkerDies(w)], u, rest, t);
    }
  }

  /** A request that finds only dead workers waits for room that there never is. */
  lemma ArrivalOnDeadPool(cfg: Config, s: State)
    requires Inv(cfg, s) && Calm(s) && s.live == {} && cfg.maxWorkers <= 0 && forall w :: w in s.at ==> s.at[w].Idle?
    ensures Enabled(cfg, s, AcquireEnter(0)) && W.Forsaken(Step(cfg, s, AcquireEnter(0)))
  {
    assert DeadPrefix(s.f.idle, s.live) == |s.f.idle|;
    OwnsAll(WorkerIds(s.f.idle), s.at, Idle);
    assert Holding(s.at, Idle) == s.at.Keys;
    S.ArrivalStrandsIff(cfg, s, 0);
  }

  lemma {:induction false} HarmlessIsGentle(cfg: Config, s: State, labels: seq<Label>)
    requires Runs(cfg, s, labels) && forall l :: l in labels ==> l.StartSpawned? || l.WorkerDies? || l.AcquireEnter?
    ensures W.GentleRun(cfg, s, labels)
    decreases |labels|
  {
    if labels != [] {
      HarmlessIsGentle(cfg, Step(cfg, s, labels[0]), labels[1..]);
    }
  }

  /** A gentle run from start-up that ends with a request nothing will wake. */
  ghost predicate Forgets(cfg: Config, now: real, labels: seq<Label>) {
    && Runs(cfg, Initial(cfg, now), labels)
    && W.GentleRun(cfg, Initial(cfg, now), labels)
    && W.Forsaken(After(cfg, Initial(cfg, now), labels))
  }

  lemma StrandedWithoutRoom(cfg: Config, now: real) returns (labels: seq<Label>)
    requires cfg.maxWorkers <= 0
    ensures Forgets(cfg, now, labels) && W.Uncancelled(labels)
  {
    var s := Initial(cfg, now);
    var start, t := StartUp(cfg, now);
    var deaths, u := EveryoneDies(cfg, t);
    Join(cfg, s, start, t, deaths, u);
    ArrivalOnDeadPool(cfg, u);
    OneMore(cfg, s, start + deaths, u, AcquireEnter(0));
    labels := start + deaths + [AcquireEnter(0)];
    HarmlessIsGentle(cfg, s, labels);
  }

  /** The wake-up promise, by settings: while spawns succeed, the sweep takes nobody,
      nothing is stopped and interrupted requests pass their wake-up on, no request is
      ever forgotten, if and only if max_workers is at least one; min_workers does not
      matter. The same goes for runs in which nobody is interrupted. */
  lemma NoLostWakeUpIff(cfg: Config, now: real)
    ensures (forall labels :: !Forgets(cfg, now, labels)) <==> 1 <= cfg.maxWorkers
    ensures (forall labels :: Forgets(cfg, now, labels) ==> !W.Uncancelled(labels)) <==> 1 <= cfg.maxWorkers
  {
    if 1 <= cfg.maxWorkers {
      forall labels ensures !Forgets(cfg, now, labels) {
        if Forgets(cfg, now, labels) { W.NoLostWakeUpWithRelays(cfg, now, labels); }
      }
    } else {
      var labels := StrandedWithoutRoom(cfg, now);
    }
  }

  // ---- every worker is handed out ----

  /** Everyone counted is idle and alive, or out. */
  ghost predicate InUse(s: State) {
    forall w :: w in s.at ==> (s.at[w].Idle? && w in s.live) || s.at[w].Out?
  }

  lemma TakeOne(cfg: Config, s: State)
    requires Inv(cfg, s) && Calm(s) && InUse(s) && s.f.idle != []
    ensures Enabled(cfg, s, AcquireEnter(0))
    ensures var t := Step(cfg, s, AcquireEnter(0));
            Inv(cfg, t) && Calm(t) && InUse(t) && t.f.total == s.f.total && |t.f.idle| == |s.f.idle| - 1
  {
    assert WorkerIds(s.f.idle)[0] in WorkerIds(s.f.idle);
    TakeFirst(cfg, s, 0);
    TakeFrontKeeps(cfg, s, 0);
  }

  lemma AllOut(s: State)
    requires Lists(s) && InUse(s) && s.f.idle == []
    ensures forall w :: w in s.at ==> s.at[w].Out?
  {
    forall w | w in s.at ensures s.at[w].Out? {
      assert w in WorkerIds(s.f.idle) <==> s.at[w].Idle?;
    }
  }

  lemma {:induction false} TakeAll(cfg: Config, s: State) returns (labels: seq<Label>, t: State)
    requires Inv(cfg, s) && Calm(s) && InUse(s)
    ensures Leads(cfg, s, labels, t) && Inv(cfg, t) && Calm(t) && t.f.idle == [] && t.f.total == s.f.total
    ensures forall w :: w in t.at ==> t.at[w].Out?
    ensures forall l :: l in labels ==> l.AcquireEnter?
    decreases |s.f.idle|
  {
    if s.f.idle == [] {
      labels, t := [], s;
      AllOut(s);
    } else {
      var u := Step(cfg, s, AcquireEnter(0));
      TakeOne(cfg, s);
      OneStep(cfg, s, AcquireEnter(0));
      var rest;
      rest, t := TakeAll(cfg, u);
      labels := [AcquireEnter(0)] + rest;
      Join(cfg, s, [AcquireEnter(0)], u, rest, t);
    }
  }

  // ---- a replenish fails with nobody waiting ----

  /** An error is on record, nobody is idle, nobody waits, and there is no room to grow. */
  predicate ErrorOnRecord(cfg: Config, s: State) {
    Calm(s) && s.f.idle == [] && s.f.total >= cfg.maxWorkers && s.f.spawnError.Some?
  }

  lemma GiveOneBack(cfg: Config, s: State, w: nat) returns (t: State)
    requires Calm(s) && s.f.idle == [] && w in s.at && s.at[w].Out? && s.f.total == cfg.minWorkers
    ensures Leads(cfg, s, [ReleaseScheduled(w), ReleaseKills(w)], t) && Enabled(cfg, t, ReleaseCounts(w))
    ensures Calm(t) && t.f.idle == [] && t.f.total == cfg.minWorkers
  {
    TwoSteps(cfg, s, ReleaseScheduled(w), ReleaseKills(w));
    t := s.(live := s.live - {w}, at := s.at[w := ReleaseQueued][w := ReleaseKilled]);
  }

  lemma ReplenishFails(cfg: Config, s: State, w: nat) returns (t: State)
    requires Calm(s) && s.f.idle == [] && Enabled(cfg, s, ReleaseCounts(w))
             && s.f.total == cfg.minWorkers > cfg.maxWorkers
    ensures Leads(cfg, s, [ReleaseCounts(w), SpawnFails("spawn failed")], t) && ErrorOnRecord(cfg, t)
  {
    var c := Step(cfg, s, ReleaseCounts(w));
    assert c.lock.Replenishing?;
    TwoSteps(cfg, s, ReleaseCounts(w), SpawnFails("spawn failed"));
    t := Step(cfg, c, SpawnFails("spawn failed"));
  }

  lemma FailToReplenish(cfg: Config, s: State, w: nat) returns (labels: seq<Label>, t: State)
    requires Calm(s) && s.f.idle == [] && w in s.at && s.at[w].Out?
    requires s.f.total == cfg.minWorkers > cfg.maxWorkers
    ensures Leads(cfg, s, labels, t) && ErrorOnRecord(cfg, t) && StopBegins !in labels
  {
    var b := GiveOneBack(cfg, s, w);
    t := ReplenishFails(cfg, b, w);
    Join(cfg, s, [ReleaseScheduled(w), ReleaseKills(w)], b, [ReleaseCounts(w), SpawnFails("spawn failed")], t);
    labels := [ReleaseScheduled(w), ReleaseKills(w)] + [ReleaseCounts(w), SpawnFails("spawn failed")];
  }

  // ---- two requests arrive later; one is cancelled and passes a wake-up on ----

  lemma ParksForNothing(cfg: Config, s: State, call: nat)
    requires s.lock.Free? && !s.f.stopped && s.f.idle == [] && s.f.total >= cfg.maxWorkers
    ensures Enabled(cfg, s, AcquireEnter(call))
    ensures Step(cfg, s, AcquireEnter(call))
         == s.(f := s.f.(waiting := s.f.waiting + 1), parked := s.parked + [Ticket(call, |s.log|)])
  {
    LoopTopOnEmpty(cfg, s, call);
  }

  function TwoParked(s: State): State {
    s.(f := s.f.(waiting := 2), parked := [Ticket(0, |s.log|), Ticket(1, |s.log|)])
  }

  function OneTold(s: State): State {
    s.(f := s.f.(waiting := 1), notified := [Ticket(0, |s.log|)])
  }

  lemma TwoArrive(cfg: Config, s: State)
    requires ErrorOnRecord(cfg, s)
    ensures Leads(cfg, s, [AcquireEnter(0), AcquireEnter(1)], TwoParked(s))
  {
    ParksForNothing(cfg, s, 0);
    ParksForNothing(cfg, Step(cfg, s, AcquireEnter(0)), 1);
    TwoSteps(cfg, s, AcquireEnter(0), AcquireEnter(1));
    assert [Ticket(0, |s.log|)] + [Ticket(1, |s.log|)] == TwoParked(s).parked;
  }

  lemma SecondIsCancelled(cfg: Config, s: State)
    requires ErrorOnRecord(cfg, s)
    ensures Leads(cfg, TwoParked(s), [CancelParked(1), CancelledLeaves(0, true)], OneTold(s))
  {
    var a := TwoParked(s);
    var b := s.(f := s.f.(waiting := 2), parked := [Ticket(0, |s.log|)], leaving := [1]);
    assert Step(cfg, a, CancelParked(1)) == b;
    assert Step(cfg, b, CancelledLeaves(0, true)) == OneTold(s);
    TwoSteps(cfg, a, CancelParked(1), CancelledLeaves(0, true));
  }

  /** Every woken request that would now be refused with a spawn failure has had one
      since it parked. */
  ghost predicate TellsTruth(cfg: Config, s: State) {
    forall i :: 0 <= i < |s.notified| && Wake(cfg, s, i).answer.SpawnError? ==>
      E.FailedSince(s.log, s.notified[i].since)
  }

  lemma ToldOfOldFailure(cfg: Config, s: State)
    requires ErrorOnRecord(cfg, s)
    ensures !TellsTruth(cfg, OneTold(s))
  {
    var t := OneTold(s);
    assert Wake(cfg, t, 0).answer.SpawnError? && t.notified[0].since == |t.log|;
  }

  /** From start-up to an error on record: take every worker, give one back, fail. */
  lemma ReachError(cfg: Config, now: real) returns (labels: seq<Label>, t: State)
    requires cfg.maxWorkers < cfg.minWorkers && 1 <= cfg.minWorkers
    ensures Leads(cfg, Initial(cfg, now), labels, t) && ErrorOnRecord(cfg, t) && StopBegins !in labels
  {
    var s := Initial(cfg, now);
    var start, u := StartUp(cfg, now);
    var takes, v := TakeAll(cfg, u);
    Join(cfg, s, start, u, takes, v);
    assert |v.at.Keys| > 0;
    var w :| w in v.at;
    var fails;
    fails, t := FailToReplenish(cfg, v, w);
    Join(cfg, s, start + takes, v, fails, t);
    labels := start + takes + fails;
  }

  lemma StaleErrorRun(cfg: Config, now: real) returns (labels: seq<Label>)
    requires cfg.maxWorkers < cfg.minWorkers && 1 <= cfg.minWorkers
    ensures var s := Initial(cfg, now);
            Runs(cfg, s, labels) && StopBegins !in labels && !TellsTruth(cfg, After(cfg, s, labels))
  {
    var before, v := ReachError(cfg, now);
    TwoArrive(cfg, v);
    SecondIsCancelled(cfg, v);
    var arrive, cancel := [AcquireEnter(0), AcquireEnter(1)], [CancelParked(1), CancelledLeaves(0, true)];
    Join(cfg, v, arrive, TwoParked(v), cancel, OneTold(v));
    Join(cfg, Initial(cfg, now), before, v, arrive + cancel, OneTold(v));
    ToldOfOldFailure(cfg, v);
    labels := before + (arrive + cancel);
  }

  // ---- settings under which nothing is ever spawned ----

  lemma NothingToSpawn(cfg: Config, s: State, l: Label)
    requires Inv(cfg, s) && Enabled(cfg, s, l) && cfg.minWorkers <= 0 && cfg.maxWorkers <= 0 && s.log == []
    ensures Step(cfg, s, l).log == []
  {
  }

  lemma {:induction false} NeverSpawns(cfg: Config, s: State, labels: seq<Label>)
    requires Inv(cfg, s) && Runs(cfg, s, labels) && cfg.minWorkers <= 0 && cfg.maxWorkers <= 0 && s.log == []
    ensures After(cfg, s, labels).f.spawnError == None
    decreases |labels|
  {
    if labels != [] {
      NothingToSpawn(cfg, s, labels[0]);
      StepKeepsInv(cfg, s, labels[0]);
      NeverSpawns(cfg, Step(cfg, s, labels[0]), labels[1..]);
    }
  }

  lemma TruthInOrder(cfg: Config, now: real, labels: seq<Label>)
    requires cfg.minWorkers <= cfg.maxWorkers || cfg.minWorkers <= 0
    requires Runs(cfg, Initial(cfg, now), labels) && StopBegins !in labels
    ensures TellsTruth(cfg, After(cfg, Initial(cfg, now), labels))
  {
    var s := After(cfg, Initial(cfg, now), labels);
    InitialInv(cfg, now);
    if cfg.minWorkers <= cfg.maxWorkers {
      forall i | 0 <= i < |s.notified| && Wake(cfg, s, i).answer.SpawnError?
        ensures E.FailedSince(s.log, s.notified[i].since) {
        E.SpawnFailureIsTruthfulWithRelays(cfg, now, labels, i);
      }
    } else {
      NeverSpawns(cfg, Initial(cfg, now), labels);
    }
  }

  /** The spawn-failure promise, by settings: over every run before stop(), with a
      condition that passes cancelled wake-ups on, a request refused with "worker spawn
      failed" had a spawn fail while it waited, if and only if min_workers does not
      exceed max_workers or nothing is pre-warmed at all. */
  lemma TruthfulIff(cfg: Config, now: real)
    ensures (forall labels :: Runs(cfg, Initial(cfg, now), labels) && StopBegins !in labels ==>
               TellsTruth(cfg, After(cfg, Initial(cfg, now), labels)))
            <==> cfg.minWorkers <= cfg.maxWorkers || cfg.minWorkers <= 0
  {
    if cfg.minWorkers <= cfg.maxWorkers || cfg.minWorkers <= 0 {
      forall labels | Runs(cfg, Initial(cfg, now), labels) && StopBegins !in labels
        ensures TellsTruth(cfg, After(cfg, Initial(cfg, now), labels))
      {
        TruthInOrder(cfg, now, labels);
      }
    } else {
      var labels := StaleErrorRun(cfg, now);
    }
  }
}

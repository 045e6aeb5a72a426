/** What the pool's critical sections do, said on the settings, the fields and the
    processes alone, and what follows for whole runs. */
module PoolLaws {
  import opened Wrappers
  import opened IdleQueue
  import opened PoolModel
  import opened Ownership
  import opened PoolInvariant
  import opened PoolSteps
  import opened PoolSafety

  // ---- acquire ----

  /** Where the first idle worker that lives is in the queue. */
  predicate FirstAlive(s: State, k: nat) {
    k < |s.f.idle| && s.f.idle[k].id in s.live && forall i :: 0 <= i < k ==> s.f.idle[i].id !in s.live
  }

  predicate AllDead(s: State) {
    forall i :: 0 <= i < |s.f.idle| ==> s.f.idle[i].id !in s.live
  }

  /** A woken request that looks again finds nobody, nothing under way, and an error. */
  predicate FindsError(s: State, l: Label) {
    l.AcquireResume? && s.f.idle == [] && s.f.pendingGrows == 0 && s.f.spawnError.Some?
  }

  lemma TurnAnswers(cfg: Config, s: State, call: nat)
    ensures var a := LoopTop(cfg, s, call).answer;
            && (a.ShuttingDown? <==> s.f.stopped)
            && (a.Waits? <==> !s.f.stopped && AllDead(s))
            && (a.Got? <==> !s.f.stopped && exists k: nat :: FirstAlive(s, k))
            && !a.SpawnError?
  {
    var d := DeadPrefix(s.f.idle, s.live);
    if d < |s.f.idle| { assert FirstAlive(s, d); }
  }

  /** Which answer a request gets: an error only from a failed spawn with nothing idle and
      no spawn under way, a refusal once the pool is being stopped, a worker if one that is
      idle lives, and otherwise it waits. */
  lemma AcquireAnswers(cfg: Config, s: State, l: Label)
    requires Enabled(cfg, s, l) && Asks(l)
    ensures var a := AnswerOf(cfg, s, l).value;
            && (a.SpawnError? <==> FindsError(s, l))
            && (a.SpawnError? ==> a.error == s.f.spawnError.value)
            && (a.ShuttingDown? <==> s.f.stopped && !FindsError(s, l))
            && (a.Got? <==> !s.f.stopped && exists k: nat :: FirstAlive(s, k))
            && (a.Waits? <==> !s.f.stopped && !FindsError(s, l) && AllDead(s))
  {
    if l.AcquireEnter? {
      TurnAnswers(cfg, s, l.call);
    } else {
      WokenAnswers(cfg, s, l.index);
    }
  }

  lemma WokenAnswers(cfg: Config, s: State, i: nat)
    requires i < |s.notified|
    ensures var a := Wake(cfg, s, i).answer;
            && (a.SpawnError? <==> FindsError(s, AcquireResume(i)))
            && (a.SpawnError? ==> a.error == s.f.spawnError.value)
            && (a.ShuttingDown? <==> s.f.stopped && !FindsError(s, AcquireResume(i)))
            && (a.Got? <==> !s.f.stopped && exists k: nat :: FirstAlive(s, k))
            && (a.Waits? <==> !s.f.stopped && !FindsError(s, AcquireResume(i)) && AllDead(s))
  {
    var w := Woken(s, i);
    TurnAnswers(cfg, w, s.notified[i].call);
    assert forall k: nat :: FirstAlive(w, k) <==> FirstAlive(s, k);
  }

  lemma FirstAliveIs(s: State, k: nat)
    requires FirstAlive(s, k)
    ensures DeadPrefix(s.f.idle, s.live) == k
  {
    DeadPrefixIs(s.f.idle, s.live, k);
  }

  lemma NobodyAlive(s: State)
    requires AllDead(s)
    ensures DeadPrefix(s.f.idle, s.live) == |s.f.idle|
  {
    DeadPrefixIs(s.f.idle, s.live, |s.f.idle|);
  }

  lemma TurnTakes(cfg: Config, s: State, call: nat, k: nat)
    requires !s.f.stopped && FirstAlive(s, k)
    ensures var t := LoopTop(cfg, s, call).next;
            && LoopTop(cfg, s, call).answer == Got(s.f.idle[k])
            && t.f == s.f.(idle := s.f.idle[k + 1..], total := s.f.total - k)
            && s.f.idle[k].id in t.at && t.at[s.f.idle[k].id] == Out(call)
            && t.grows == s.grows && t.parked == s.parked && t.notified == s.notified && t.live == s.live
  {
    FirstAliveIs(s, k);
  }

  /** A request that gets a worker gets the longest idle of those alive; exactly the dead
      ones before it are dropped and un-counted, and nothing else about the queue, the
      waiters or the grows changes. */
  lemma AcquireTakesLongestIdle(cfg: Config, s: State, l: Label, k: nat)
    requires Enabled(cfg, s, l) && Asks(l) && !s.f.stopped && FirstAlive(s, k)
    ensures var t := Step(cfg, s, l);
            && AnswerOf(cfg, s, l) == Some(Got(s.f.idle[k]))
            && t.f.idle == s.f.idle[k + 1..] && t.f.total == s.f.total - k
            && s.f.idle[k].id in t.at && t.at[s.f.idle[k].id] == Out(CallerOf(s, l))
            && t.f.pendingGrows == s.f.pendingGrows && t.grows == s.grows && t.parked == s.parked
            && t.f.spawnError == s.f.spawnError
  {
    if l.AcquireEnter? {
      TurnTakes(cfg, s, l.call, k);
    } else {
      assert FirstAlive(Woken(s, l.index), k);
      TurnTakes(cfg, Woken(s, l.index), CallerOf(s, l), k);
    }
  }

  lemma TurnParks(cfg: Config, s: State, call: nat)
    requires !s.f.stopped && AllDead(s)
    ensures var t := LoopTop(cfg, s, call).next;
            && t.f.idle == [] && t.f.total == s.f.total - |s.f.idle|
            && t.parked == s.parked + [Ticket(call, |s.log|)] && t.f.waiting == s.f.waiting + 1
            && t.grows == s.grows + (if t.f.total < cfg.maxWorkers then 1 else 0)
            && t.f.pendingGrows == s.f.pendingGrows + (if t.f.total < cfg.maxWorkers then 1 else 0)
  {
    NobodyAlive(s);
  }

  /** A request that waits has found nobody alive: the dead are dropped and un-counted, it
      goes to the end of the line, and one grow is scheduled for it if the pool is below
      max_workers, however many are pending already; at the cap none is. */
  lemma AcquireWaits(cfg: Config, s: State, l: Label)
    requires Enabled(cfg, s, l) && Asks(l) && AnswerOf(cfg, s, l).value.Waits?
    ensures var t := Step(cfg, s, l);
            && t.f.idle == [] && t.f.total == s.f.total - |s.f.idle|
            && t.parked == s.parked + [Ticket(CallerOf(s, l), |s.log|)]
            && (t.f.total < cfg.maxWorkers ==>
                  t.grows == s.grows + 1 && t.f.pendingGrows == s.f.pendingGrows + 1)
            && (t.f.total >= cfg.maxWorkers ==> t.grows == s.grows && t.f.pendingGrows == s.f.pendingGrows)
  {
    AcquireAnswers(cfg, s, l);
    if l.AcquireEnter? {
      TurnParks(cfg, s, l.call);
    } else {
      assert AllDead(Woken(s, l.index));
      TurnParks(cfg, Woken(s, l.index), CallerOf(s, l));
    }
  }

  /** A request that is refused leaves everything but its own place as it was. */
  lemma RefusalTouchesNothing(cfg: Config, s: State, l: Label)
    requires Enabled(cfg, s, l) && Asks(l) && Refuses(AnswerOf(cfg, s, l).value)
    ensures var t := Step(cfg, s, l);
            && t == s.(f := t.f, notified := t.notified) && t.f == s.f.(waiting := t.f.waiting)
            && t.notified == (if l.AcquireEnter? then s.notified else RemoveAt(s.notified, l.index))
            && t.f.waiting == s.f.waiting - (if l.AcquireEnter? then 0 else 1)
  {
  }

  // ---- grows and releases ----

  /** A scheduled grow spawns exactly when the pool is below its cap and open, and is over
      at once otherwise. */
  lemma GrowSpawnsIff(cfg: Config, s: State)
    requires Enabled(cfg, s, GrowBegins)
    ensures var t := Step(cfg, s, GrowBegins);
            && t.grows == s.grows - 1
            && (t.lock.Growing? <==> s.f.total < cfg.maxWorkers && !s.f.stopped)
            && t.f.pendingGrows == s.f.pendingGrows - (if t.lock.Growing? then 0 else 1)
            && (t.lock.Growing? || t.lock.Free?)
  {
  }

  /** A counted release takes its worker out of the count, marks the time, and goes on to
      spawn exactly when the pool is open and either short of min_workers or below the cap
      with some request in the condition's queues or just leaving them, whatever grows are
      pending. */
  lemma ReleaseReplenishesIff(cfg: Config, s: State, w: nat)
    requires Inv(cfg, s) && Enabled(cfg, s, ReleaseCounts(w))
    ensures var t := Step(cfg, s, ReleaseCounts(w));
            && t.f.total == s.f.total - 1 && t.f.lastReleaseAt == s.now && t.at == s.at - {w}
            && t.f.idle == s.f.idle && t.live == s.live && t.parked == s.parked && t.notified == s.notified
            && (t.lock.Replenishing? <==>
                  !s.f.stopped
                  && (t.f.total < cfg.minWorkers
                      || (t.f.total < cfg.maxWorkers && (s.parked != [] || s.notified != [] || s.leaving != []))))
            && (t.lock.Replenishing? || t.lock.Free?)
  {
  }

  // ---- the sweep ----

  /** Nobody but idle workers is counted, and the last release is long enough ago. */
  predicate Unused(cfg: Config, s: State) {
    cfg.scaleToZero > 0.0 && s.now - s.f.lastReleaseAt > cfg.scaleToZero && forall w :: w in s.at ==> s.at[w].Idle?
  }

  lemma AllIdleIff(cfg: Config, s: State)
    requires Inv(cfg, s)
    ensures s.f.total == |s.f.idle| <==> forall w :: w in s.at ==> s.at[w].Idle?
  {
    OwnsAll(WorkerIds(s.f.idle), s.at, Idle);
    assert Holding(s.at, Idle) <= s.at.Keys;
    if s.f.total == |s.f.idle| {
      assert |s.at.Keys - Holding(s.at, Idle)| == 0;
      assert s.at.Keys - Holding(s.at, Idle) == {};
    }
    if forall w :: w in s.at ==> s.at[w].Idle? {
      assert Holding(s.at, Idle) == s.at.Keys;
    }
  }

  lemma UnusedDrains(cfg: Config, s: State)
    requires Inv(cfg, s)
    ensures Unused(cfg, s) <==> Drains(cfg, s.f, s.now)
  {
    AllIdleIff(cfg, s);
  }

  /** The sweep of an unused pool empties it, below min_workers too: every worker of the
      queue goes on the kill list. */
  lemma UnusedPoolDrains(cfg: Config, s: State)
    requires Reachable(cfg, s) && Enabled(cfg, s, SweepSelects) && Unused(cfg, s)
    ensures var t := Step(cfg, s, SweepSelects); t.f.idle == [] && SweepQueue(t) == WorkerIds(s.f.idle)
  {
    ReachableInv(cfg, s);
    UnusedDrains(cfg, s);
    SweepTakesPrefix(s.f.idle, |s.f.idle|, true, s.now, cfg.idleTimeout);
    assert s.f.idle[..|s.f.idle|] == s.f.idle;
  }

  /** The sweep of a pool in use: the k longest idle workers go, all of them expired; at
      least min_workers of the queue stay, or all of it if it is shorter; and it takes as
      many as that allows. */
  lemma UsedPoolShrinks(cfg: Config, s: State)
    requires Reachable(cfg, s) && Enabled(cfg, s, SweepSelects) && !Unused(cfg, s)
    ensures var t := Step(cfg, s, SweepSelects);
            var k := |s.f.idle| - |t.f.idle|;
            && 0 <= k <= Max(0, |s.f.idle| - cfg.minWorkers)
            && t.f.idle == s.f.idle[k..] && SweepQueue(t) == WorkerIds(s.f.idle[..k])
            && (forall i :: 0 <= i < k ==> s.now - s.f.idle[i].becameIdleAt > cfg.idleTimeout)
            && (k < |s.f.idle| - cfg.minWorkers && k < |s.f.idle| ==>
                  s.now - s.f.idle[k].becameIdleAt <= cfg.idleTimeout)
  {
    ReachableInv(cfg, s);
    UnusedDrains(cfg, s);
    UsedPass(cfg, s);
    PassShrinks(s.f.idle, cfg.minWorkers, s.now, cfg.idleTimeout);
  }

  lemma UsedPass(cfg: Config, s: State)
    requires Enabled(cfg, s, SweepSelects) && !Drains(cfg, s.f, s.now)
    ensures var t := Step(cfg, s, SweepSelects);
            var room := Max(0, |s.f.idle| - cfg.minWorkers);
            && t.f.idle == Survivors(s.f.idle, room, false, s.now, cfg.idleTimeout)
            && SweepQueue(t) == WorkerIds(Condemned(s.f.idle, room, false, s.now, cfg.idleTimeout))
  {
  }

  /** The pass with what it may take when it is not draining. */
  lemma PassShrinks(idle: seq<Worker>, minWorkers: int, now: real, timeout: real)
    requires ByAge(idle)
    ensures var room := Max(0, |idle| - minWorkers);
            var kills, rest := Condemned(idle, room, false, now, timeout), Survivors(idle, room, false, now, timeout);
            var k := |idle| - |rest|;
            && 0 <= k <= room && rest == idle[k..] && kills == idle[..k]
            && (forall i :: 0 <= i < k ==> now - idle[i].becameIdleAt > timeout)
            && (k < |idle| - minWorkers && k < |idle| ==> now - idle[k].becameIdleAt <= timeout)
  {
    SweepTakesPrefix(idle, Max(0, |idle| - minWorkers), false, now, timeout);
  }

  /** What a sweep does besides taking workers: nothing, and it sleeps again at once if it
      has taken nobody. */
  lemma SweepTouchesOnlyIdle(cfg: Config, s: State)
    requires Reachable(cfg, s) && Enabled(cfg, s, SweepSelects)
    ensures var t := Step(cfg, s, SweepSelects);
            && t == s.(f := s.f.(idle := t.f.idle), at := t.at, sweep := t.sweep)
            && (t.f.idle == s.f.idle <==> t.sweep.Sleeping?)
            && (t.f.idle != s.f.idle ==> t.sweep.SweepKilling? && !t.sweep.killed)
  {
    ReachableInv(cfg, s);
    SweepTakesPrefix(s.f.idle, Allowance(cfg, s.f, s.now), Drains(cfg, s.f, s.now), s.now, cfg.idleTimeout);
  }

  // ---- the clocks of whole runs ----

  predicate NoRelease(labels: seq<Label>) {
    forall l :: l in labels ==> !l.ReleaseCounts?
  }

  lemma {:induction false} MarkStays(cfg: Config, s: State, labels: seq<Label>)
    requires Runs(cfg, s, labels) && NoRelease(labels)
    ensures After(cfg, s, labels).f.lastReleaseAt == s.f.lastReleaseAt
    decreases |labels|
  {
    if labels != [] {
      if Asks(labels[0]) { AskingKeepsClocks(cfg, s, labels[0]); }
      else if !labels[0].Tick? { OthersKeepClocks(cfg, s, labels[0]); }
      MarkStays(cfg, Step(cfg, s, labels[0]), labels[1..]);
    }
  }

  /** When a pool drains, over runs: if no release is counted after this one, then any sweep
      that finds every counted worker idle takes all of them as soon as
      `idle_scale_to_zero_sec` has passed since, and until then nobody but expired workers
      beyond min_workers. */
  lemma DrainsOnceUnused(cfg: Config, s: State, w: nat, labels: seq<Label>)
    requires Reachable(cfg, s) && Enabled(cfg, s, ReleaseCounts(w)) && NoRelease(labels)
    requires Runs(cfg, Step(cfg, s, ReleaseCounts(w)), labels)
    requires var u := After(cfg, Step(cfg, s, ReleaseCounts(w)), labels);
             Enabled(cfg, u, SweepSelects) && forall v :: v in u.at ==> u.at[v].Idle?
    ensures var u := After(cfg, Step(cfg, s, ReleaseCounts(w)), labels);
            var t := Step(cfg, u, SweepSelects);
            if cfg.scaleToZero > 0.0 && u.now - s.now > cfg.scaleToZero then t.f.idle == []
            else |t.f.idle| >= Min(|u.f.idle|, cfg.minWorkers)
  {
    var b := Step(cfg, s, ReleaseCounts(w));
    var u := After(cfg, b, labels);
    MarkStays(cfg, b, labels);
    ReachesOn(cfg, s, ReleaseCounts(w), labels);
    if Unused(cfg, u) { UnusedPoolDrains(cfg, u); } else { UsedPoolShrinks(cfg, u); }
  }

  lemma {:induction false} RunOn(cfg: Config, s: State, a: seq<Label>, b: seq<Label>)
    requires Runs(cfg, s, a) && Runs(cfg, After(cfg, s, a), b)
    ensures Runs(cfg, s, a + b) && After(cfg, s, a + b) == After(cfg, After(cfg, s, a), b)
    decreases |a|
  {
    if a == [] {
      assert a + b == b;
    } else {
      assert (a + b)[1..] == a[1..] + b;
      RunOn(cfg, Step(cfg, s, a[0]), a[1..], b);
    }
  }

  lemma ReachesOn(cfg: Config, s: State, l: Label, labels: seq<Label>)
    requires Reachable(cfg, s) && Enabled(cfg, s, l) && Runs(cfg, Step(cfg, s, l), labels)
    ensures Reachable(cfg, After(cfg, Step(cfg, s, l), labels))
  {
    var before, now :| Runs(cfg, Initial(cfg, now), before) && After(cfg, Initial(cfg, now), before) == s;
    assert ([l] + labels)[1..] == labels;
    RunOn(cfg, Initial(cfg, now), before, [l] + labels);
    assert Runs(cfg, Initial(cfg, now), before + ([l] + labels));
  }

  /** A pool that nobody has used since it was made does not drain before the delay either. */
  lemma NoDrainSoonAfterStart(cfg: Config, now: real, labels: seq<Label>)
    requires Runs(cfg, Initial(cfg, now), labels)
    ensures var t := After(cfg, Initial(cfg, now), labels);
            Unused(cfg, t) ==> t.now - now > cfg.scaleToZero && (NoRelease(labels) ==> t.f.lastReleaseAt == now)
  {
    ReleaseIsRemembered(cfg, Initial(cfg, now), labels, now);
    if NoRelease(labels) { MarkStays(cfg, Initial(cfg, now), labels); }
  }

  // ---- how long a worker has been idle ----

  /** Whenever the worker is in the queue, its stamp is `since`. */
  predicate Stamps(s: State, w: nat, since: real) {
    w < s.next && forall x :: x in s.f.idle && x.id == w ==> x.becameIdleAt == since
  }

  lemma StampsWhenAsking(cfg: Config, s: State, l: Label, w: nat, since: real)
    requires Enabled(cfg, s, l) && Asks(l) && Stamps(s, w, since)
    ensures Stamps(Step(cfg, s, l), w, since)
  {
    AskingShortens(cfg, s, l);
  }

  lemma AskingShortens(cfg: Config, s: State, l: Label)
    requires Enabled(cfg, s, l) && Asks(l)
    ensures Step(cfg, s, l).next == s.next && forall x :: x in Step(cfg, s, l).f.idle ==> x in s.f.idle
  {
  }

  lemma StampsWhenSupplying(cfg: Config, s: State, l: Label, w: nat, since: real)
    requires Enabled(cfg, s, l) && Supplies(l) && Stamps(s, w, since)
    ensures Stamps(Step(cfg, s, l), w, since)
  {
  }

  lemma RetiringShortens(cfg: Config, s: State, l: Label)
    requires Clocks(s) && Enabled(cfg, s, l) && Retires(l)
    ensures Step(cfg, s, l).next == s.next && forall x :: x in Step(cfg, s, l).f.idle ==> x in s.f.idle
  {
    SweepTakesPrefix(s.f.idle, Allowance(cfg, s.f, s.now), Drains(cfg, s.f, s.now), s.now, cfg.idleTimeout);
  }

  lemma {:induction false} StampsRun(cfg: Config, s: State, labels: seq<Label>, w: nat, since: real)
    requires Inv(cfg, s) && Stamps(s, w, since) && Runs(cfg, s, labels)
    ensures Inv(cfg, After(cfg, s, labels)) && Stamps(After(cfg, s, labels), w, since)
    decreases |labels|
  {
    if labels != [] {
      var l := labels[0];
      if Asks(l) { StampsWhenAsking(cfg, s, l, w, since); }
      else if Supplies(l) { StampsWhenSupplying(cfg, s, l, w, since); }
      else { RetiringShortens(cfg, s, l); }
      StepKeepsInv(cfg, s, l);
      StampsRun(cfg, Step(cfg, s, l), labels[1..], w, since);
    }
  }

  /** The steps that spawn. */
  predicate Spawns(l: Label) {
    l.StartSpawned? || l.SpawnSucceeds?
  }

  /** What a spawn does: a new process at the back of the queue, stamped with the time, and
      counted; the remembered spawn error is forgotten. */
  lemma SpawnQueues(cfg: Config, s: State, l: Label)
    requires Enabled(cfg, s, l) && Spawns(l)
    ensures var t := Step(cfg, s, l);
            && t.f.idle == s.f.idle + [Worker(s.next, s.now)] && t.f.total == s.f.total + 1
            && t.next == s.next + 1 && t.live == s.live + {s.next} && t.at == s.at[s.next := Idle]
            && t.f.spawnError == None && t.f.lastReleaseAt == s.f.lastReleaseAt
  {
  }

  /** The idle timeout, over runs: unless the pool is unused, no sweep takes a worker before
      `idle_timeout_sec` has passed since it was spawned. */
  lemma SweptOnlyAfterTimeout(cfg: Config, s: State, l: Label, labels: seq<Label>)
    requires Reachable(cfg, s) && Enabled(cfg, s, l) && Spawns(l) && Runs(cfg, Step(cfg, s, l), labels)
    requires var u := After(cfg, Step(cfg, s, l), labels); Enabled(cfg, u, SweepSelects) && !Unused(cfg, u)
    ensures var u := After(cfg, Step(cfg, s, l), labels);
            s.next in SweepQueue(Step(cfg, u, SweepSelects)) ==> u.now - s.now > cfg.idleTimeout
  {
    var b := Step(cfg, s, l);
    ReachableInv(cfg, s);
    StepKeepsInv(cfg, s, l);
    SpawnStamps(cfg, s, l);
    StampsRun(cfg, b, labels, s.next, s.now);
    ReachesOn(cfg, s, l, labels);
    SweptWhenExpired(cfg, After(cfg, b, labels), s.next, s.now);
  }

  lemma SpawnStamps(cfg: Config, s: State, l: Label)
    requires Inv(cfg, s) && Enabled(cfg, s, l) && Spawns(l)
    ensures Stamps(Step(cfg, s, l), s.next, s.now)
  {
    SpawnQueues(cfg, s, l);
    OlderAreOthers(s);
  }

  lemma SweptWhenExpired(cfg: Config, u: State, w: nat, since: real)
    requires Reachable(cfg, u) && Stamps(u, w, since) && Enabled(cfg, u, SweepSelects) && !Unused(cfg, u)
    ensures w in SweepQueue(Step(cfg, u, SweepSelects)) ==> u.now - since > cfg.idleTimeout
  {
    UsedPoolShrinks(cfg, u);
    var t := Step(cfg, u, SweepSelects);
    var k := |u.f.idle| - |t.f.idle|;
    if w in SweepQueue(t) {
      var i :| 0 <= i < k && WorkerIds(u.f.idle[..k])[i] == w;
      assert u.f.idle[i] in u.f.idle;
    }
  }

  lemma OlderAreOthers(s: State)
    requires Custody(s)
    ensures forall x :: x in s.f.idle ==> x.id < s.next
  {
    forall x | x in s.f.idle ensures x.id < s.next {
      var i :| 0 <= i < |s.f.idle| && s.f.idle[i] == x;
      assert WorkerIds(s.f.idle)[i] == x.id;
      assert x.id in WorkerIds(s.f.idle);
    }
  }

  // ---- who is killed ----

  /** The worker whose process the step brings to an end, if any. */
  function Victim(s: State, l: Label): set<nat>
    requires l.SweepKills? ==> SweepQueue(s) != []
    requires l.StopKills? ==> StopQueue(s) != []
  {
    match l
    case WorkerDies(w) => {w}
    case ReleaseKills(w) => {w}
    case SweepKills => {SweepQueue(s)[0]}
    case StopKills => {StopQueue(s)[0]}
    case _ => {}
  }

  lemma AskingKillsNobody(cfg: Config, s: State, l: Label)
    requires Enabled(cfg, s, l) && Asks(l)
    ensures Step(cfg, s, l).live == s.live
  {
  }

  /** Only a release, the sweep and stop() kill, each one worker at a time, and only a
      spawn starts a process. */
  lemma OnlyVictimsDie(cfg: Config, s: State, l: Label)
    requires Enabled(cfg, s, l)
    ensures Step(cfg, s, l).live == s.live - Victim(s, l) + if Spawns(l) then {s.next} else {}
  {
    if Asks(l) { AskingKillsNobody(cfg, s, l); }
  }

  /** stop() takes over the whole queue, in its order, and wakes everyone who is parked. */
  lemma StopTakesAll(cfg: Config, s: State)
    requires Enabled(cfg, s, StopCloses)
    ensures var t := Step(cfg, s, StopCloses);
            && t.f == s.f.(idle := []) && StopQueue(t) == WorkerIds(s.f.idle)
            && t.parked == [] && t.notified == s.notified + s.parked
            && (s.f.idle == [] ==> t.stop == Stopped)
  {
  }

  /** The decrement after a kill is for the worker killed, and the list goes on with the
      next; at its end the sweep sleeps again and stop() returns. */
  lemma ListsAdvance(cfg: Config, s: State, l: Label)
    requires Inv(cfg, s) && Enabled(cfg, s, l) && (l.SweepCounts? || l.StopCounts?)
    ensures var t := Step(cfg, s, l);
            && t.f == s.f.(total := s.f.total - 1)
            && (l.SweepCounts? ==>
                  && t.at == s.at - {SweepQueue(s)[0]} && SweepQueue(t) == SweepQueue(s)[1..]
                  && (|SweepQueue(s)| == 1 <==> t.sweep.Sleeping?))
            && (l.StopCounts? ==>
                  && t.at == s.at - {StopQueue(s)[0]} && StopQueue(t) == StopQueue(s)[1..]
                  && (|StopQueue(s)| == 1 <==> t.stop.Stopped?))
  {
  }

  // ---- who is woken ----

  /** How many waiters the step wakes. */
  function Wakings(s: State, l: Label): nat {
    if l.StopCloses? then |s.parked|
    else if Spawns(l) || l.SpawnFails? || (l.CancelledLeaves? && l.relays) then Min(1, |s.parked|)
    else 0
  }

  lemma OneIsWoken(cfg: Config, s: State, l: Label)
    requires Enabled(cfg, s, l) && (Spawns(l) || l.SpawnFails? || (l.CancelledLeaves? && l.relays))
    ensures var t := Step(cfg, s, l);
            var n := Min(1, |s.parked|);
            t.parked == s.parked[n..] && t.notified == s.notified + s.parked[..n]
  {
  }

  lemma NobodyIsWoken(cfg: Config, s: State, l: Label)
    requires Enabled(cfg, s, l) && Supplies(l) && !Spawns(l) && !l.SpawnFails?
    requires (l.CancelledLeaves? ==> !l.relays) && !l.CancelParked? && !l.CancelNotified?
    ensures Step(cfg, s, l).parked == s.parked && Step(cfg, s, l).notified == s.notified
  {
  }

  lemma WakesWhenSupplying(cfg: Config, s: State, l: Label)
    requires Enabled(cfg, s, l) && Supplies(l) && !l.CancelParked? && !l.CancelNotified?
    ensures var t := Step(cfg, s, l);
            && t.parked == s.parked[Wakings(s, l)..]
            && t.notified == s.notified + s.parked[..Wakings(s, l)]
  {
    if Spawns(l) || l.SpawnFails? || (l.CancelledLeaves? && l.relays) {
      OneIsWoken(cfg, s, l);
    } else {
      NobodyIsWoken(cfg, s, l);
    }
  }

  lemma WakesWhenRetiring(cfg: Config, s: State, l: Label)
    requires Enabled(cfg, s, l) && Retires(l)
    ensures var t := Step(cfg, s, l);
            && t.parked == s.parked[Wakings(s, l)..]
            && t.notified == s.notified + s.parked[..Wakings(s, l)]
  {
  }

  /** First come, first woken: a step wakes the requests that have been parked longest, in
      their order; a spawn, a failed spawn and a wake-up passed on wake one, stop() wakes
      all, and nothing else wakes anybody. */
  lemma WakesLongestParked(cfg: Config, s: State, l: Label)
    requires Enabled(cfg, s, l) && !Asks(l) && !l.CancelParked? && !l.CancelNotified?
    ensures var t := Step(cfg, s, l);
            && t.parked == s.parked[Wakings(s, l)..]
            && t.notified == s.notified + s.parked[..Wakings(s, l)]
  {
    if Supplies(l) { WakesWhenSupplying(cfg, s, l); } else { WakesWhenRetiring(cfg, s, l); }
  }

  function ParkedBy(cfg: Config, s: State, l: Label): seq<Ticket>
    requires Enabled(cfg, s, l)
  {
    if Asks(l) && AnswerOf(cfg, s, l).value.Waits? then [Ticket(CallerOf(s, l), |s.log|)] else []
  }

  /** The requests that a run parks, and those that it wakes, each in order. */
  function ParkedIn(cfg: Config, s: State, labels: seq<Label>): seq<Ticket>
    requires Runs(cfg, s, labels)
    decreases |labels|
  {
    if labels == [] then []
    else
      var l := labels[0];
      ParkedBy(cfg, s, l) + ParkedIn(cfg, Step(cfg, s, l), labels[1..])
  }

  function WokenBy(s: State, l: Label, t: State): seq<Ticket> {
    if Asks(l) || l.CancelNotified? || |t.notified| < |s.notified| then [] else t.notified[|s.notified|..]
  }

  function WokenIn(cfg: Config, s: State, labels: seq<Label>): seq<Ticket>
    requires Runs(cfg, s, labels)
    decreases |labels|
  {
    if labels == [] then []
    else
      var l, t := labels[0], Step(cfg, s, labels[0]);
      WokenBy(s, l, t) + WokenIn(cfg, t, labels[1..])
  }

  lemma AskingParks(cfg: Config, s: State, l: Label)
    requires Enabled(cfg, s, l) && Asks(l)
    ensures Step(cfg, s, l).parked == s.parked + ParkedBy(cfg, s, l)
  {
    AcquireAnswers(cfg, s, l);
    if AnswerOf(cfg, s, l).value.Waits? {
      AcquireWaits(cfg, s, l);
    } else if AnswerOf(cfg, s, l).value.Got? {
      var k: nat :| FirstAlive(s, k);
      AcquireTakesLongestIdle(cfg, s, l, k);
    } else {
      RefusalTouchesNothing(cfg, s, l);
    }
  }

  lemma OneStepInOrder(cfg: Config, s: State, l: Label)
    requires Enabled(cfg, s, l) && !l.CancelParked?
    ensures var t := Step(cfg, s, l); WokenBy(s, l, t) + t.parked == s.parked + ParkedBy(cfg, s, l)
  {
    if Asks(l) {
      AskingParks(cfg, s, l);
    } else if l.CancelNotified? {
      assert Step(cfg, s, l).parked == s.parked;
    } else {
      WakesLongestParked(cfg, s, l);
    }
  }

  lemma Rejoin(a: seq<Ticket>, woken: seq<Ticket>, after: seq<Ticket>, t: seq<Ticket>, parked: seq<Ticket>,
      s: seq<Ticket>, b: seq<Ticket>)
    requires woken + after == t + parked && a + t == s + b
    ensures a + woken + after == s + (b + parked)
  {
    assert a + woken + after == a + (woken + after);
    assert a + (t + parked) == (a + t) + parked;
    assert s + (b + parked) == (s + b) + parked;
  }

  /** Nobody overtakes: over any run in which no parked request is cancelled, requests are
      woken in exactly the order in which they parked, those still parked being the rest. */
  lemma {:induction false} WokenInOrder(cfg: Config, s: State, labels: seq<Label>)
    requires Runs(cfg, s, labels) && forall l :: l in labels ==> !l.CancelParked?
    ensures WokenIn(cfg, s, labels) + After(cfg, s, labels).parked == s.parked + ParkedIn(cfg, s, labels)
    decreases |labels|
  {
    if labels != [] {
      var l, t := labels[0], Step(cfg, s, labels[0]);
      OneStepInOrder(cfg, s, l);
      WokenInOrder(cfg, t, labels[1..]);
      Rejoin(WokenBy(s, l, t), WokenIn(cfg, t, labels[1..]), After(cfg, t, labels[1..]).parked, t.parked,
             ParkedIn(cfg, t, labels[1..]), s.parked, ParkedBy(cfg, s, l));
    }
  }

  // ---- start() and the sweep's life ----

  lemma SweepGoesOnWhenSupplying(cfg: Config, s: State, l: Label)
    requires ShutdownOrder(s) && Capacity(cfg, s) && Enabled(cfg, s, l) && Supplies(l) && !l.StartAborted?
    requires s.sweep.NoSweep? <==> s.lock.Starting?
    ensures var t := Step(cfg, s, l); t.sweep.NoSweep? <==> t.lock.Starting?
  {
  }

  lemma SweepGoesOnWhenRetiring(cfg: Config, s: State, l: Label)
    requires ShutdownOrder(s) && Enabled(cfg, s, l) && Retires(l) && !l.StopBegins?
    requires s.sweep.NoSweep? <==> s.lock.Starting?
    ensures var t := Step(cfg, s, l); t.sweep.NoSweep? <==> t.lock.Starting?
  {
  }

  lemma SweepGoesOnWhenAsking(cfg: Config, s: State, l: Label)
    requires Enabled(cfg, s, l) && Asks(l)
    requires s.sweep.NoSweep? <==> s.lock.Starting?
    ensures var t := Step(cfg, s, l); t.sweep.NoSweep? <==> t.lock.Starting?
  {
  }

  lemma {:induction false} SweepGoesOn(cfg: Config, s: State, labels: seq<Label>)
    requires Inv(cfg, s) && Runs(cfg, s, labels) && StartAborted !in labels && StopBegins !in labels
    requires s.sweep.NoSweep? <==> s.lock.Starting?
    ensures var t := After(cfg, s, labels); t.sweep.NoSweep? <==> t.lock.Starting?
    decreases |labels|
  {
    if labels != [] {
      var l := labels[0];
      if Asks(l) { SweepGoesOnWhenAsking(cfg, s, l); }
      else if Supplies(l) { SweepGoesOnWhenSupplying(cfg, s, l); }
      else { SweepGoesOnWhenRetiring(cfg, s, l); }
      StepKeepsInv(cfg, s, l);
      SweepGoesOn(cfg, Step(cfg, s, l), labels[1..]);
    }
  }

  /** The scale-down task lives from the end of start() to the beginning of stop(), pass
      after pass. */
  lemma SweepLivesUntilStop(cfg: Config, now: real, labels: seq<Label>)
    requires Runs(cfg, Initial(cfg, now), labels) && StartAborted !in labels && StopBegins !in labels
    ensures var t := After(cfg, Initial(cfg, now), labels);
            !t.lock.Starting? ==> t.sweep.Sleeping? || t.sweep.SweepKilling?
  {
    InitialInv(cfg, now);
    SweepGoesOn(cfg, Initial(cfg, now), labels);
  }

  /** What can happen to a pool while start() has its lock. */
  predicate StartingUp(l: Label) {
    l.StartSpawned? || l.Tick? || l.WorkerDies?
  }

  /** How many idle workers start() has left to add. */
  predicate StartIsAt(cfg: Config, s: State) {
    && |s.f.idle| + (if s.lock.Starting? then s.lock.left else 0) == Max(0, cfg.minWorkers)
    && (s.lock.Free? || (s.lock.Starting? && s.lock.left > 0))
    && s.parked == [] && s.f.total == |s.f.idle|
  }

  lemma StartMoves(cfg: Config, s: State, l: Label)
    requires StartIsAt(cfg, s) && Enabled(cfg, s, l) && StartingUp(l)
    ensures StartIsAt(cfg, Step(cfg, s, l))
  {
  }

  lemma {:induction false} StartGoesOn(cfg: Config, s: State, labels: seq<Label>)
    requires StartIsAt(cfg, s) && Runs(cfg, s, labels) && forall l :: l in labels ==> StartingUp(l)
    ensures StartIsAt(cfg, After(cfg, s, labels))
    decreases |labels|
  {
    if labels != [] {
      StartMoves(cfg, s, labels[0]);
      StartGoesOn(cfg, Step(cfg, s, labels[0]), labels[1..]);
    }
  }

  /** start() is over exactly when `min_workers` workers are idle, and then the sweep has
      begun. */
  lemma StartPreWarms(cfg: Config, now: real, labels: seq<Label>)
    requires Runs(cfg, Initial(cfg, now), labels) && forall l :: l in labels ==> StartingUp(l)
    ensures var t := After(cfg, Initial(cfg, now), labels);
            && (t.lock.Free? <==> |t.f.idle| == Max(0, cfg.minWorkers))
            && t.f.total == |t.f.idle| && (t.lock.Free? ==> !t.sweep.NoSweep?)
  {
    StartGoesOn(cfg, Initial(cfg, now), labels);
    SweepLivesUntilStop(cfg, now, labels);
  }
}

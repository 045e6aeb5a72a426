/** Safety of the pool over every interleaving, every spawn result and every
    cancellation point. */
module PoolSafety {
  import opened Wrappers
  import opened IdleQueue
  import opened PoolModel
  import opened Ownership
  import opened PoolInvariant
  import opened PoolSteps

  // ---- conservation ----

  function OutSet(at: map<nat, Place>): set<nat> { set w | w in at && at[w].Out? }

  function ReleasingSet(at: map<nat, Place>): set<nat> {
    set w | w in at && (at[w].ReleaseQueued? || at[w].ReleaseKilled?)
  }

  function Kind(p: Place): nat {
    match p
    case Idle => 0
    case Out(_) => 1
    case ReleaseQueued => 2
    case ReleaseKilled => 2
    case Swept => 3
    case Doomed => 4
    case Abandoned => 5
  }

  function OfKind(at: map<nat, Place>, k: nat): set<nat> { set w | w in at && Kind(at[w]) == k }

  function UpTo(at: map<nat, Place>, k: nat): set<nat> { set w | w in at && Kind(at[w]) <= k }

  lemma OneMoreKind(at: map<nat, Place>, k: nat)
    ensures |UpTo(at, k + 1)| == |UpTo(at, k)| + |OfKind(at, k + 1)|
  {
    assert UpTo(at, k + 1) == UpTo(at, k) + OfKind(at, k + 1);
    assert UpTo(at, k) !! OfKind(at, k + 1);
  }

  lemma KindsAreSets(at: map<nat, Place>)
    ensures UpTo(at, 0) == Holding(at, Idle) && OfKind(at, 1) == OutSet(at) && OfKind(at, 2) == ReleasingSet(at)
    ensures OfKind(at, 3) == Holding(at, Swept) && OfKind(at, 4) == Holding(at, Doomed)
            && OfKind(at, 5) == Holding(at, Abandoned)
    ensures UpTo(at, 5) == at.Keys
  {
  }

  lemma Partition(at: map<nat, Place>)
    ensures |at| == |Holding(at, Idle)| + |OutSet(at)| + |ReleasingSet(at)| + |Holding(at, Swept)|
                    + |Holding(at, Doomed)| + |Holding(at, Abandoned)|
  {
    KindsAreSets(at);
    OneMoreKind(at, 0);
    OneMoreKind(at, 1);
    OneMoreKind(at, 2);
    OneMoreKind(at, 3);
    OneMoreKind(at, 4);
    assert |at| == |at.Keys|;
  }

  /** `_total` is the idle queue, plus the workers out, plus those being released,
      plus those a sweep or a stop() has taken but not yet un-counted, plus those whose
      un-counting was cancelled. The places are disjoint because custody is a map. */
  lemma Conservation(cfg: Config, s: State)
    requires Reachable(cfg, s)
    ensures s.f.total ==
            |s.f.idle| + |OutSet(s.at)| + |ReleasingSet(s.at)| + |SweepQueue(s)|
            + |StopQueue(s)| + |Holding(s.at, Abandoned)|
    ensures forall w :: w in WorkerIds(s.f.idle) <==> w in s.at && s.at[w].Idle?
    ensures Distinct(WorkerIds(s.f.idle))
  {
    ReachableInv(cfg, s);
    Partition(s.at);
    OwnsAll(WorkerIds(s.f.idle), s.at, Idle);
    OwnsAll(SweepQueue(s), s.at, Swept);
    OwnsAll(StopQueue(s), s.at, Doomed);
  }

  /** The drain test holds only when every counted worker is idle: no request and no
      job has one, and none is on its way back. */
  lemma DrainFindsNobodyOut(cfg: Config, s: State)
    requires Reachable(cfg, s) && Drains(cfg, s.f, s.now)
    ensures forall w :: w in s.at ==> s.at[w].Idle?
  {
    ReachableInv(cfg, s);
    OwnsAll(WorkerIds(s.f.idle), s.at, Idle);
    assert Holding(s.at, Idle) <= s.at.Keys;
    assert |s.at.Keys - Holding(s.at, Idle)| == 0;
    assert s.at.Keys - Holding(s.at, Idle) == {};
  }

  /** Live workers never outnumber the count: whatever was un-counted is dead. */
  lemma NeverUnderCounted(cfg: Config, s: State)
    requires Reachable(cfg, s)
    ensures s.live <= s.at.Keys && |s.live| <= s.f.total
  {
    ReachableInv(cfg, s);
    assert |s.at.Keys - s.live| == |s.at.Keys| - |s.live|;
  }

  /** The cap, for any number of grows, replenishing releases and waiters and for
      unordered settings: the larger of the two bounds, or zero if both are negative. */
  lemma CapacityBound(cfg: Config, s: State)
    requires Reachable(cfg, s)
    ensures 0 <= s.f.total <= Max(0, Max(cfg.minWorkers, cfg.maxWorkers))
  {
    ReachableInv(cfg, s);
  }

  /** What /health may rely on: `busy` is never negative, and it counts exactly the
      workers that are counted but not idle. */
  lemma BusyCountsTheRest(cfg: Config, s: State)
    requires Reachable(cfg, s)
    ensures s.f.total - |s.f.idle| == |s.at.Keys - Holding(s.at, Idle)|
  {
    ReachableInv(cfg, s);
    OwnsAll(WorkerIds(s.f.idle), s.at, Idle);
    assert Holding(s.at, Idle) <= s.at.Keys;
    assert |s.at.Keys - Holding(s.at, Idle)| == |s.at.Keys| - |Holding(s.at, Idle)|;
  }

  // ---- one-shot workers ----

  /** The worker has been in the pool and has left the idle queue for good. */
  predicate Spent(s: State, w: nat) {
    w < s.next && (w in s.at ==> !s.at[w].Idle?)
  }

  lemma OnlySpawnsQueueWhenSupplying(cfg: Config, s: State, l: Label)
    requires Enabled(cfg, s, l) && !Asks(l)
    requires Supplies(l)
    ensures var t := Step(cfg, s, l);
            s.next <= t.next
            && forall w :: w in t.at && t.at[w].Idle? ==> (w in s.at && s.at[w].Idle?) || w == s.next < t.next
  {
  }

  lemma OnlySpawnsQueueWhenRetiring(cfg: Config, s: State, l: Label)
    requires Enabled(cfg, s, l) && !Asks(l)
    requires Retires(l)
    ensures var t := Step(cfg, s, l);
            s.next <= t.next
            && forall w :: w in t.at && t.at[w].Idle? ==> (w in s.at && s.at[w].Idle?) || w == s.next < t.next
  {
  }

  /** Only a spawn puts a worker into the idle queue, and always a new one. */
  lemma OnlySpawnsQueue(cfg: Config, s: State, l: Label)
    requires Enabled(cfg, s, l) && !Asks(l)
    ensures var t := Step(cfg, s, l);
            s.next <= t.next
            && forall w :: w in t.at && t.at[w].Idle? ==> (w in s.at && s.at[w].Idle?) || w == s.next < t.next
  {
    if Supplies(l) { OnlySpawnsQueueWhenSupplying(cfg, s, l); } else { OnlySpawnsQueueWhenRetiring(cfg, s, l); }
  }

  lemma AskingQueuesNobody(cfg: Config, s: State, l: Label)
    requires Enabled(cfg, s, l) && Asks(l)
    ensures var t := Step(cfg, s, l);
            s.next == t.next && forall w :: w in t.at && t.at[w].Idle? ==> w in s.at && s.at[w].Idle?
  {
  }

  lemma SpentStays(cfg: Config, s: State, l: Label, w: nat)
    requires Enabled(cfg, s, l) && Spent(s, w)
    ensures Spent(Step(cfg, s, l), w)
  {
    if Asks(l) { AskingQueuesNobody(cfg, s, l); } else { OnlySpawnsQueue(cfg, s, l); }
  }

  /** A worker that has once left the idle queue is never queued again and never handed
      out again, by any later step of any run. */
  lemma {:induction false} NeverHandedOutTwice(cfg: Config, s: State, labels: seq<Label>, l: Label, w: nat)
    requires Reachable(cfg, s) && Spent(s, w) && Runs(cfg, s, labels) && Enabled(cfg, After(cfg, s, labels), l)
    ensures Spent(After(cfg, s, labels), w)
    ensures var a := AnswerOf(cfg, After(cfg, s, labels), l);
            a.Some? && a.value.Got? ==>
              a.value.worker.id != w && Spent(Step(cfg, After(cfg, s, labels), l), a.value.worker.id)
  {
    ReachableInv(cfg, s);
    SpentThroughRun(cfg, s, labels, w);
    RunKeepsInv(cfg, s, labels);
    var t := After(cfg, s, labels);
    if AnswerOf(cfg, t, l).Some? && AnswerOf(cfg, t, l).value.Got? {
      HandedOutIsSpent(cfg, t, l);
    }
  }

  lemma {:induction false} SpentThroughRun(cfg: Config, s: State, labels: seq<Label>, w: nat)
    requires Spent(s, w) && Runs(cfg, s, labels)
    ensures Spent(After(cfg, s, labels), w)
    decreases |labels|
  {
    if labels != [] {
      SpentStays(cfg, s, labels[0], w);
      SpentThroughRun(cfg, Step(cfg, s, labels[0]), labels[1..], w);
    }
  }

  lemma LoopTopHandsOut(cfg: Config, s: State, call: nat)
    requires Custody(s) && LoopTop(cfg, s, call).answer.Got?
    ensures var t := LoopTop(cfg, s, call);
            var w := t.answer.worker.id;
            && w in t.next.at && t.next.at[w] == Out(call) && w in s.live && w in s.at && s.at[w].Idle?
            && w < t.next.next
  {
    var d := DropDead(s);
    assert d.f.idle[0] == s.f.idle[DeadPrefix(s.f.idle, s.live)];
    var i := DeadPrefix(s.f.idle, s.live);
    assert WorkerIds(s.f.idle)[i] == s.f.idle[i].id;
    assert s.f.idle[i].id in WorkerIds(s.f.idle);
  }

  /** A request only ever gets a worker that is alive, and gets it to itself. */
  lemma HandedOutIsSpent(cfg: Config, s: State, l: Label)
    requires Inv(cfg, s) && Enabled(cfg, s, l)
    requires AnswerOf(cfg, s, l).Some? && AnswerOf(cfg, s, l).value.Got?
    ensures var w := AnswerOf(cfg, s, l).value.worker.id;
            && w in s.live && w in s.at && s.at[w].Idle?
            && Spent(Step(cfg, s, l), w)
            && w in Step(cfg, s, l).at && Step(cfg, s, l).at[w].Out?
  {
    if l.AcquireEnter? {
      LoopTopHandsOut(cfg, s, l.call);
    } else {
      WokenKeeps(cfg, s, l.index);
      LoopTopHandsOut(cfg, Woken(s, l.index), s.notified[l.index].call);
    }
  }

  // ---- the sweep ----

  /** What the sweep does to any reachable pool: it takes the oldest workers, keeps the
      order of the rest, empties the queue when draining, and otherwise takes only
      expired workers and stops at min_workers survivors or at an unexpired one. */
  lemma SweepTakesOldest(cfg: Config, s: State)
    requires Reachable(cfg, s) && Enabled(cfg, s, SweepSelects)
    ensures var t := Step(cfg, s, SweepSelects);
            var k := |KillList(cfg, s.f, s.now)|;
            && k <= |s.f.idle| && KillList(cfg, s.f, s.now) == s.f.idle[..k] && t.f.idle == s.f.idle[k..]
            && SweepQueue(t) == WorkerIds(s.f.idle)[..k]
            && ByAge(s.f.idle)
            && (Drains(cfg, s.f, s.now) ==> t.f.idle == [])
            && (!Drains(cfg, s.f, s.now) ==>
                 && (forall i :: 0 <= i < k ==> s.now - s.f.idle[i].becameIdleAt > cfg.idleTimeout)
                 && (k > 0 ==> |t.f.idle| >= cfg.minWorkers)
                 && (|t.f.idle| <= cfg.minWorkers ||
                    forall i :: k <= i < |s.f.idle| ==> s.now - s.f.idle[i].becameIdleAt <= cfg.idleTimeout))
  {
    ReachableInv(cfg, s);
    SweepTakesPrefix(s.f.idle, Allowance(cfg, s.f, s.now), Drains(cfg, s.f, s.now), s.now, cfg.idleTimeout);
    var k := |KillList(cfg, s.f, s.now)|;
    assert WorkerIds(s.f.idle[..k]) == WorkerIds(s.f.idle)[..k];
  }

  lemma AskingKeepsClocks(cfg: Config, s: State, l: Label)
    requires Enabled(cfg, s, l) && Asks(l)
    ensures Step(cfg, s, l).f.lastReleaseAt == s.f.lastReleaseAt && Step(cfg, s, l).now == s.now
  {
  }

  lemma OthersKeepClocksWhenSupplying(cfg: Config, s: State, l: Label)
    requires Enabled(cfg, s, l) && !Asks(l) && !l.Tick? && !l.ReleaseCounts?
    requires Supplies(l)
    ensures Step(cfg, s, l).f.lastReleaseAt == s.f.lastReleaseAt && Step(cfg, s, l).now == s.now
  {
  }

  lemma OthersKeepClocksWhenRetiring(cfg: Config, s: State, l: Label)
    requires Enabled(cfg, s, l) && !Asks(l) && !l.Tick? && !l.ReleaseCounts?
    requires Retires(l)
    ensures Step(cfg, s, l).f.lastReleaseAt == s.f.lastReleaseAt && Step(cfg, s, l).now == s.now
  {
  }

  lemma OthersKeepClocks(cfg: Config, s: State, l: Label)
    requires Enabled(cfg, s, l) && !Asks(l) && !l.Tick? && !l.ReleaseCounts?
    ensures Step(cfg, s, l).f.lastReleaseAt == s.f.lastReleaseAt && Step(cfg, s, l).now == s.now
  {
    if Supplies(l) { OthersKeepClocksWhenSupplying(cfg, s, l); } else { OthersKeepClocksWhenRetiring(cfg, s, l); }
  }

  lemma RemembersRelease(cfg: Config, s: State, l: Label)
    requires Enabled(cfg, s, l) && s.f.lastReleaseAt <= s.now
    ensures s.f.lastReleaseAt <= Step(cfg, s, l).f.lastReleaseAt <= Step(cfg, s, l).now
  {
    if Asks(l) { AskingKeepsClocks(cfg, s, l); }
    else if !l.Tick? && !l.ReleaseCounts? { OthersKeepClocks(cfg, s, l); }
  }

  lemma {:induction false} ReleaseIsRemembered(cfg: Config, s: State, labels: seq<Label>, at: real)
    requires Runs(cfg, s, labels) && at <= s.f.lastReleaseAt <= s.now
    ensures var t := After(cfg, s, labels); at <= t.f.lastReleaseAt <= t.now
    decreases |labels|
  {
    if labels != [] {
      RemembersRelease(cfg, s, labels[0]);
      var t := Step(cfg, s, labels[0]);
      ReleaseIsRemembered(cfg, t, labels[1..], at);
    }
  }

  /** However long a run lasts and whatever it does, the pool does not drain until
      `idle_scale_to_zero_sec` has passed since the latest counted release. */
  lemma NoDrainSoonAfterRelease(cfg: Config, s: State, w: nat, labels: seq<Label>)
    requires Reachable(cfg, s) && Enabled(cfg, s, ReleaseCounts(w))
    requires Runs(cfg, Step(cfg, s, ReleaseCounts(w)), labels)
    ensures var t := After(cfg, Step(cfg, s, ReleaseCounts(w)), labels);
            Drains(cfg, t.f, t.now) ==> cfg.scaleToZero > 0.0 && t.now - s.now > cfg.scaleToZero
  {
    ReleaseIsRemembered(cfg, Step(cfg, s, ReleaseCounts(w)), labels, s.now);
  }

  // ---- after stop() has closed the pool ----

  lemma ClosedStepWhenSupplying(cfg: Config, s: State, l: Label)
    requires ShutdownOrder(s) && Enabled(cfg, s, l) && s.closed
    requires Supplies(l)
    ensures var t := Step(cfg, s, l);
            t.closed && t.next == s.next && t.f.total <= s.f.total && t.live <= s.live
  {
  }

  lemma ClosedStepWhenRetiring(cfg: Config, s: State, l: Label)
    requires ShutdownOrder(s) && Enabled(cfg, s, l) && s.closed
    requires Retires(l)
    ensures var t := Step(cfg, s, l);
            t.closed && t.next == s.next && t.f.total <= s.f.total && t.live <= s.live
  {
  }

  lemma ClosedStepWhenAsking(cfg: Config, s: State, l: Label)
    requires ShutdownOrder(s) && Enabled(cfg, s, l) && s.closed
    requires Asks(l)
    ensures var t := Step(cfg, s, l);
            t.closed && t.next == s.next && t.f.total <= s.f.total && t.live <= s.live
  {
  }

  lemma ClosedStep(cfg: Config, s: State, l: Label)
    requires ShutdownOrder(s) && Enabled(cfg, s, l) && s.closed
    ensures var t := Step(cfg, s, l);
            t.closed && t.next == s.next && t.f.total <= s.f.total && t.live <= s.live
  {
    if Asks(l) { ClosedStepWhenAsking(cfg, s, l); }
    else if Supplies(l) { ClosedStepWhenSupplying(cfg, s, l); }
    else { ClosedStepWhenRetiring(cfg, s, l); }
  }

  /** Once stop()'s critical section has run: the queue stays empty, nobody stays
      parked, nothing is spawned, the count never rises, and every request that is
      woken or that arrives is refused with PoolUnavailableError at its first turn. */
  lemma {:induction false} ClosedForGood(cfg: Config, s: State, labels: seq<Label>)
    requires Inv(cfg, s) && s.closed && Runs(cfg, s, labels)
    ensures var t := After(cfg, s, labels);
            && t.closed && t.f.idle == [] && t.parked == [] && t.lock.Free?
            && t.next == s.next && t.live <= s.live && t.f.total <= s.f.total
            && (forall call :: LoopTop(cfg, t, call).answer == ShuttingDown)
            && (forall i :: 0 <= i < |t.notified| ==>
                 var a := Wake(cfg, t, i).answer; a == ShuttingDown || a.SpawnError?)
    decreases |labels|
  {
    if labels != [] {
      ClosedStep(cfg, s, labels[0]);
      StepKeepsInv(cfg, s, labels[0]);
      ClosedForGood(cfg, Step(cfg, s, labels[0]), labels[1..]);
    }
  }

  predicate Refuses(a: Answer) {
    a.ShuttingDown? || a.SpawnError?
  }

  /** Every answer that the run gives is a refusal. */
  ghost predicate AllRefused(cfg: Config, s: State, labels: seq<Label>)
    requires Runs(cfg, s, labels)
    decreases |labels|
  {
    labels == []
    || ((AnswerOf(cfg, s, labels[0]).Some? ==> Refuses(AnswerOf(cfg, s, labels[0]).value))
        && AllRefused(cfg, Step(cfg, s, labels[0]), labels[1..]))
  }

  /** The step in which the woken request looks again, or is cancelled. */
  predicate Takes(s: State, l: Label, ticket: Ticket) {
    (l.AcquireResume? || l.CancelNotified?) && l.index < |s.notified| && s.notified[l.index] == ticket
  }

  /** The woken request has had its turn somewhere in the run. */
  ghost predicate Taken(cfg: Config, s: State, labels: seq<Label>, ticket: Ticket)
    requires Runs(cfg, s, labels)
    decreases |labels|
  {
    labels != [] && (Takes(s, labels[0], ticket) || Taken(cfg, Step(cfg, s, labels[0]), labels[1..], ticket))
  }

  lemma ClosedRefuses(cfg: Config, s: State, l: Label)
    requires s.f.stopped && Enabled(cfg, s, l) && Asks(l)
    ensures Refuses(AnswerOf(cfg, s, l).value)
    ensures Step(cfg, s, l).notified == if l.AcquireEnter? then s.notified else RemoveAt(s.notified, l.index)
  {
  }

  lemma OthersKeepWoken(cfg: Config, s: State, l: Label)
    requires Enabled(cfg, s, l) && !Asks(l) && !l.CancelNotified?
    ensures s.notified <= Step(cfg, s, l).notified
  {
  }

  lemma StaysWoken(cfg: Config, s: State, l: Label, ticket: Ticket)
    requires s.f.stopped && Enabled(cfg, s, l) && ticket in s.notified && !Takes(s, l, ticket)
    ensures ticket in Step(cfg, s, l).notified
  {
    var i :| 0 <= i < |s.notified| && s.notified[i] == ticket;
    if Asks(l) {
      ClosedRefuses(cfg, s, l);
      if l.AcquireResume? { StillIn(s.notified, l.index, i); }
    } else if l.CancelNotified? {
      StillIn(s.notified, l.index, i);
    } else {
      OthersKeepWoken(cfg, s, l);
      assert Step(cfg, s, l).notified[i] == ticket;
    }
  }

  lemma StillIn(woken: seq<Ticket>, i: nat, k: nat)
    requires i < |woken| && k < |woken| && woken[i] != woken[k]
    ensures woken[k] in RemoveAt(woken, i)
  {
    if k < i {
      assert RemoveAt(woken, i)[k] == woken[k];
    } else {
      assert RemoveAt(woken, i)[k - 1] == woken[k];
    }
  }

  lemma {:induction false} WokenAreRefused(cfg: Config, s: State, labels: seq<Label>, ticket: Ticket)
    requires Inv(cfg, s) && s.closed && Runs(cfg, s, labels) && ticket in s.notified
    ensures ticket in After(cfg, s, labels).notified || Taken(cfg, s, labels, ticket)
    decreases |labels|
  {
    if labels != [] && !Takes(s, labels[0], ticket) {
      StaysWoken(cfg, s, labels[0], ticket);
      ClosedStep(cfg, s, labels[0]);
      StepKeepsInv(cfg, s, labels[0]);
      WokenAreRefused(cfg, Step(cfg, s, labels[0]), labels[1..], ticket);
    }
  }

  lemma {:induction false} EveryoneIsRefused(cfg: Config, s: State, labels: seq<Label>)
    requires Inv(cfg, s) && s.closed && Runs(cfg, s, labels)
    ensures AllRefused(cfg, s, labels)
    decreases |labels|
  {
    if labels != [] {
      if Asks(labels[0]) { ClosedRefuses(cfg, s, labels[0]); }
      ClosedStep(cfg, s, labels[0]);
      StepKeepsInv(cfg, s, labels[0]);
      EveryoneIsRefused(cfg, Step(cfg, s, labels[0]), labels[1..]);
    }
  }

  /** Everyone parked or woken when stop() closes the pool has one wake-up coming and
      gets a refusal from it: in every continuation the request is still on the list of
      the woken until its turn, nobody parks again, and every turn taken is a refusal. */
  lemma CloseRefusesEveryone(cfg: Config, s: State, labels: seq<Label>, ticket: Ticket)
    requires Reachable(cfg, s) && Enabled(cfg, s, StopCloses) && (ticket in s.parked || ticket in s.notified)
    requires Runs(cfg, Step(cfg, s, StopCloses), labels)
    ensures var t := Step(cfg, s, StopCloses);
            && After(cfg, t, labels).parked == []
            && AllRefused(cfg, t, labels)
            && (ticket in After(cfg, t, labels).notified || Taken(cfg, t, labels, ticket))
  {
    ReachableInv(cfg, s);
    var t := Step(cfg, s, StopCloses);
    StepKeepsInv(cfg, s, StopCloses);
    assert ticket in t.notified;
    WokenAreRefused(cfg, t, labels, ticket);
    EveryoneIsRefused(cfg, t, labels);
    ClosedForGood(cfg, t, labels);
  }

  // ---- who holds what ----

  /** The same workers are out, with the same callers. */
  ghost predicate SameOut(a: map<nat, Place>, b: map<nat, Place>) {
    forall w, c :: (w in a && a[w] == Out(c)) <==> (w in b && b[w] == Out(c))
  }

  lemma KillListIsIdle(cfg: Config, s: State)
    requires Custody(s) && ByAge(s.f.idle)
    ensures forall w :: w in WorkerIds(KillList(cfg, s.f, s.now)) ==> w in WorkerIds(s.f.idle)
  {
    SweepTakesPrefix(s.f.idle, Allowance(cfg, s.f, s.now), Drains(cfg, s.f, s.now), s.now, cfg.idleTimeout);
    var k := |KillList(cfg, s.f, s.now)|;
    assert WorkerIds(s.f.idle[..k]) == WorkerIds(s.f.idle)[..k];
  }

  /** The steps that change anyone's custody. */
  predicate Touches(l: Label) {
    Asks(l) || Relabels(l) || l.StartSpawned? || l.SpawnSucceeds? || l.ReleaseScheduled? || l.ReleaseKills?
    || l.ReleaseCounts?
    || l.ReleaseCancelled? || l.SweepCounts? || l.StopCounts?
  }

  lemma SpawnsTouchNobody(cfg: Config, s: State, l: Label)
    requires Enabled(cfg, s, l)
    requires l.StartAborted? || l.GrowBegins? || l.SpawnFails? || l.SpawnCancelled? || l.GrowCancelled?
    ensures Step(cfg, s, l).at == s.at
  {
  }

  lemma OthersTouchNobodyWhenSupplying(cfg: Config, s: State, l: Label)
    requires Enabled(cfg, s, l)
    requires l.Tick? || l.WorkerDies? || l.CancelParked? || l.CancelNotified? || l.CancelledLeaves?
    ensures Step(cfg, s, l).at == s.at
  {
  }

  lemma OthersTouchNobodyWhenRetiring(cfg: Config, s: State, l: Label)
    requires Enabled(cfg, s, l) && !Touches(l)
    requires Retires(l)
    ensures Step(cfg, s, l).at == s.at
  {
  }

  lemma OthersTouchNobody(cfg: Config, s: State, l: Label)
    requires Enabled(cfg, s, l) && !Touches(l)
    ensures Step(cfg, s, l).at == s.at
  {
    if l.StartAborted? || l.GrowBegins? || l.SpawnFails? || l.SpawnCancelled? || l.GrowCancelled?
      { SpawnsTouchNobody(cfg, s, l); }
    else if Supplies(l) { OthersTouchNobodyWhenSupplying(cfg, s, l); }
    else { OthersTouchNobodyWhenRetiring(cfg, s, l); }
  }

  predicate Relabels(l: Label) {
    l.SweepSelects? || l.StopBegins? || l.StopCloses? || l.StopInterrupted?
  }

  lemma RelabelsKeepOut(cfg: Config, s: State, l: Label)
    requires Custody(s) && ByAge(s.f.idle) && Enabled(cfg, s, l) && Relabels(l)
    ensures SameOut(s.at, Step(cfg, s, l).at)
  {
    KillListIsIdle(cfg, s);
  }

  lemma SpawnKeepsOut(cfg: Config, s: State, l: Label)
    requires Counted(s) && Enabled(cfg, s, l) && (l.StartSpawned? || l.SpawnSucceeds?)
    ensures SameOut(s.at, Step(cfg, s, l).at)
  {
    assert Step(cfg, s, l).at == s.at[s.next := Idle];
  }

  lemma MovesKeepOut(cfg: Config, s: State, l: Label)
    requires Lists(s) && Enabled(cfg, s, l)
    requires l.ReleaseKills? || l.ReleaseCounts? || l.ReleaseCancelled? || l.SweepCounts? || l.StopCounts?
    ensures SameOut(s.at, Step(cfg, s, l).at)
  {
    if l.SweepCounts? {
      assert s.sweep.queue[0] in SweepQueue(s);
    } else if l.StopCounts? {
      assert s.stop.queue[0] in StopQueue(s);
    }
  }

  /** Only acquire hands workers out and only a scheduled release takes them back. */
  lemma OthersKeepOut(cfg: Config, s: State, l: Label)
    requires Inv(cfg, s) && Enabled(cfg, s, l) && !Asks(l) && !l.ReleaseScheduled?
    ensures SameOut(s.at, Step(cfg, s, l).at)
  {
    if !Touches(l) { OthersTouchNobody(cfg, s, l); }
    else if Relabels(l) { RelabelsKeepOut(cfg, s, l); }
    else if l.StartSpawned? || l.SpawnSucceeds? { SpawnKeepsOut(cfg, s, l); }
    else { MovesKeepOut(cfg, s, l); }
  }

  lemma DropDeadOut(s: State)
    requires Custody(s)
    ensures var t := DropDead(s);
            && SameOut(s.at, t.at)
            && (t.f.idle != [] ==> t.f.idle[0].id in s.at && s.at[t.f.idle[0].id].Idle? && t.f.idle[0].id in t.at)
  {
    var d := DeadPrefix(s.f.idle, s.live);
    var ids := WorkerIds(s.f.idle);
    assert WorkerIds(s.f.idle[..d]) == ids[..d];
    SplitDistinct(ids, d);
    if d < |ids| {
      assert ids[d] in ids && ids[d] == ids[d..][0] && ids[d] in ids[d..];
    }
  }

  lemma GotOut(cfg: Config, s: State, call: nat)
    requires Custody(s) && LoopTop(cfg, s, call).answer.Got?
    ensures var t := LoopTop(cfg, s, call);
            && SameOut(s.at[t.answer.worker.id := Out(call)], t.next.at)
            && t.answer.worker.id in s.at && s.at[t.answer.worker.id].Idle?
  {
    DropDeadOut(s);
  }

  lemma NotGotOut(cfg: Config, s: State, call: nat)
    requires Custody(s) && !LoopTop(cfg, s, call).answer.Got?
    ensures SameOut(s.at, LoopTop(cfg, s, call).next.at)
  {
    DropDeadOut(s);
  }

  lemma LoopTopOut(cfg: Config, s: State, call: nat)
    requires Custody(s)
    ensures var t := LoopTop(cfg, s, call);
            if t.answer.Got? then
              SameOut(s.at[t.answer.worker.id := Out(call)], t.next.at)
              && t.answer.worker.id in s.at && s.at[t.answer.worker.id].Idle?
            else SameOut(s.at, t.next.at)
  {
    if LoopTop(cfg, s, call).answer.Got? { GotOut(cfg, s, call); } else { NotGotOut(cfg, s, call); }
  }
}

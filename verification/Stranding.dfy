/** Exactly when a parked request is forgotten.

    The pool's comments promise that no waiter is left with nothing to wake it. Of all
    the steps of an open pool, four kinds can break that, each under an exact condition
    on the state before it. */
module Stranding {
  import opened IdleQueue
  import opened PoolModel
  import opened Ownership
  import opened PoolInvariant
  import opened PoolSteps
  import opened WakeUps

  ghost predicate NoneReturning(at: map<nat, Place>) {
    forall w :: !Returning(at, w)
  }

  /** Nobody idle is alive, and the workers that are not idle leave no room to grow. */
  predicate FullOfOthers(cfg: Config, s: State) {
    DeadPrefix(s.f.idle, s.live) == |s.f.idle| && s.f.total - |s.f.idle| >= cfg.maxWorkers
  }

  /** When a step of an open pool forgets the parked requests. */
  ghost predicate Strands(cfg: Config, s: State, l: Label) {
    match l
    case AcquireEnter(_) =>
      s.notified == [] && s.f.pendingGrows == 0 && NoneReturning(s.at) && FullOfOthers(cfg, s)
    case AcquireResume(_) =>
      && |s.notified| == 1 && s.f.pendingGrows == 0 && NoneReturning(s.at)
      && if s.f.idle == [] && s.f.spawnError.Some? then s.parked != [] else FullOfOthers(cfg, s)
    case CancelNotified(_) =>
      s.parked != [] && |s.notified| == 1 && s.f.pendingGrows == 0 && !s.lock.Replenishing? && NoneReturning(s.at)
    case GrowBegins =>
      s.parked != [] && s.notified == [] && s.f.pendingGrows == 1 && s.f.total >= cfg.maxWorkers && NoneReturning(s.at)
    case _ => false
  }

  lemma SourceMeans(s: State)
    ensures Stranded(s) <==>
            s.parked != [] && s.f.pendingGrows <= 0 && s.notified == [] && !s.lock.Replenishing? && NoneReturning(s.at)
  {
  }

  lemma DropDeadReturning(s: State)
    requires Lists(s)
    ensures forall w :: Returning(DropDead(s).at, w) <==> Returning(s.at, w)
  {
    var d := DeadPrefix(s.f.idle, s.live);
    var ids := WorkerIds(s.f.idle);
    assert WorkerIds(s.f.idle[..d]) == ids[..d];
    SplitDistinct(ids, d);
    forall w ensures Returning(DropDead(s).at, w) <==> Returning(s.at, w) {
      assert w in ids <==> w in s.at && s.at[w] == Idle;
    }
  }

  // ---- the acquire loop ----

  lemma GotIsSource(cfg: Config, s: State, call: nat)
    requires LoopTop(cfg, s, call).answer.Got?
    ensures !Stranded(LoopTop(cfg, s, call).next)
  {
    var t := LoopTop(cfg, s, call);
    assert Returning(t.next.at, t.answer.worker.id);
  }

  lemma ParkingStrandsIff(cfg: Config, s: State, call: nat)
    requires Lists(s) && s.lock.Free? && 0 <= s.f.pendingGrows && LoopTop(cfg, s, call).answer.Waits?
    ensures Stranded(LoopTop(cfg, s, call).next) <==>
            s.notified == [] && s.f.pendingGrows == 0 && NoneReturning(s.at) && s.f.total - |s.f.idle| >= cfg.maxWorkers
  {
    DropDeadReturning(s);
    var t := LoopTop(cfg, s, call).next;
    assert t.at == DropDead(s).at;
    SourceMeans(t);
    assert NoneReturning(s.at) <==> NoneReturning(t.at);
  }

  lemma LoopTopStrandsIff(cfg: Config, s: State, call: nat)
    requires Lists(s) && s.lock.Free? && 0 <= s.f.pendingGrows && !s.f.stopped
    ensures Stranded(LoopTop(cfg, s, call).next) <==>
            s.notified == [] && s.f.pendingGrows == 0 && NoneReturning(s.at) && FullOfOthers(cfg, s)
  {
    if LoopTop(cfg, s, call).answer.Got? {
      GotIsSource(cfg, s, call);
    } else {
      ParkingStrandsIff(cfg, s, call);
    }
  }

  lemma EnterStrandsIff(cfg: Config, s: State, call: nat)
    requires Inv(cfg, s) && Enabled(cfg, s, AcquireEnter(call)) && !s.f.stopped
    ensures Stranded(Step(cfg, s, AcquireEnter(call))) <==> Strands(cfg, s, AcquireEnter(call))
  {
    LoopTopStrandsIff(cfg, s, call);
  }

  lemma ResumeStrandsIff(cfg: Config, s: State, i: nat)
    requires Inv(cfg, s) && Enabled(cfg, s, AcquireResume(i)) && !s.f.stopped
    ensures Stranded(Step(cfg, s, AcquireResume(i))) <==> Strands(cfg, s, AcquireResume(i))
  {
    var w := Woken(s, i);
    WokenKeeps(cfg, s, i);
    assert w.notified == [] <==> |s.notified| == 1;
    if Wake(cfg, s, i).answer.SpawnError? {
      SourceMeans(Wake(cfg, s, i).next);
      GaveUp(cfg, s, i);
    } else {
      TurnedAgain(cfg, s, i);
      LoopTopStrandsIff(cfg, w, s.notified[i].call);
    }
  }

  lemma GaveUp(cfg: Config, s: State, i: nat)
    requires i < |s.notified| && !s.f.stopped && Wake(cfg, s, i).answer.SpawnError?
    ensures Wake(cfg, s, i).next == Woken(s, i) && s.f.idle == [] && s.f.pendingGrows == 0 && s.f.spawnError.Some?
  {
  }

  lemma TurnedAgain(cfg: Config, s: State, i: nat)
    requires i < |s.notified| && !Wake(cfg, s, i).answer.SpawnError?
    ensures Wake(cfg, s, i) == LoopTop(cfg, Woken(s, i), s.notified[i].call)
    ensures !(s.f.idle == [] && s.f.pendingGrows == 0 && s.f.spawnError.Some?)
  {
  }

  // ---- cancelled wake-ups and grows that find no room ----

  lemma CancelStrandsIff(cfg: Config, s: State, i: nat)
    requires Inv(cfg, s) && Enabled(cfg, s, CancelNotified(i))
    ensures Stranded(Step(cfg, s, CancelNotified(i))) <==> Strands(cfg, s, CancelNotified(i))
  {
    SourceMeans(Step(cfg, s, CancelNotified(i)));
  }

  lemma GrowStrandsIff(cfg: Config, s: State)
    requires Inv(cfg, s) && Enabled(cfg, s, GrowBegins) && !s.f.stopped
    ensures Stranded(Step(cfg, s, GrowBegins)) <==> Strands(cfg, s, GrowBegins)
  {
    SourceMeans(Step(cfg, s, GrowBegins));
  }

  // ---- every other step ----

  /** A release never strands anyone: it spawns a replacement whenever somebody waits,
      because before it the count was within the cap and it makes room for one. */
  lemma ReleaseStrandsNobody(cfg: Config, s: State, w: nat)
    requires Inv(cfg, s) && Enabled(cfg, s, ReleaseCounts(w)) && !s.f.stopped
    ensures !Stranded(Step(cfg, s, ReleaseCounts(w)))
  {
    assert |s.at| > 0 by { assert w in s.at.Keys; }
  }

  predicate Wakes(l: Label) {
    l.StartSpawned? || l.SpawnSucceeds? || l.SpawnFails? || (l.CancelledLeaves? && l.relays)
  }

  /** Whoever wakes someone strands nobody: either somebody is now woken or nobody was parked. */
  lemma WakingStrandsNobody(cfg: Config, s: State, l: Label)
    requires Enabled(cfg, s, l) && Wakes(l)
    ensures !Stranded(Step(cfg, s, l))
  {
  }

  predicate Returns(l: Label) {
    l.ReleaseScheduled? || l.ReleaseKills?
  }

  lemma ReturningStrandsNobody(cfg: Config, s: State, l: Label)
    requires Enabled(cfg, s, l) && Returns(l)
    ensures !Stranded(Step(cfg, s, l))
  {
    assert Returning(Step(cfg, s, l).at, l.worker);
  }

  /** The steps that leave the queues, the grows and every worker out or coming back as
      they are. */
  predicate Aside(l: Label) {
    l.Tick? || l.WorkerDies? || l.StartAborted? || l.CancelParked? || (l.CancelledLeaves? && !l.relays)
    || l.SweepSelects? || l.SweepKills? || l.SweepCounts? || l.StopBegins?
  }

  lemma SweepLeavesReturning(cfg: Config, s: State, l: Label)
    requires Inv(cfg, s) && Enabled(cfg, s, l) && (l.SweepSelects? || l.SweepCounts?)
    ensures forall w :: Returning(Step(cfg, s, l).at, w) <==> Returning(s.at, w)
  {
    if l.SweepSelects? {
      SelectedWereIdle(cfg, s);
    } else {
      assert s.sweep.queue[0] in SweepQueue(s);
    }
  }

  lemma StopLeavesReturning(cfg: Config, s: State)
    requires Inv(cfg, s) && Enabled(cfg, s, StopBegins)
    ensures forall w :: Returning(Step(cfg, s, StopBegins).at, w) <==> Returning(s.at, w)
  {
    assert s.sweep.SweepKilling? ==> s.sweep.queue == SweepQueue(s);
  }

  lemma AsideReturning(cfg: Config, s: State, l: Label)
    requires Inv(cfg, s) && Enabled(cfg, s, l) && Aside(l)
    ensures forall w :: Returning(Step(cfg, s, l).at, w) <==> Returning(s.at, w)
  {
    if l.SweepSelects? || l.SweepCounts? { SweepLeavesReturning(cfg, s, l); }
    else if l.StopBegins? { StopLeavesReturning(cfg, s); }
    else { assert Step(cfg, s, l).at == s.at; }
  }

  lemma SelectedWereIdle(cfg: Config, s: State)
    requires Custody(s) && ByAge(s.f.idle)
    ensures forall w :: w in WorkerIds(KillList(cfg, s.f, s.now)) ==> w in s.at && s.at[w].Idle?
  {
    SweepTakesPrefix(s.f.idle, Allowance(cfg, s.f, s.now), Drains(cfg, s.f, s.now), s.now, cfg.idleTimeout);
    var k := |KillList(cfg, s.f, s.now)|;
    assert WorkerIds(s.f.idle[..k]) == WorkerIds(s.f.idle)[..k];
  }

  lemma AsideStrandsNobody(cfg: Config, s: State, l: Label)
    requires Inv(cfg, s) && Enabled(cfg, s, l) && Aside(l) && !Stranded(s)
    ensures !Stranded(Step(cfg, s, l))
  {
    AsideReturning(cfg, s, l);
    var t := Step(cfg, s, l);
    assert t.parked != [] ==> s.parked != [];
    assert t.f.pendingGrows == s.f.pendingGrows && t.notified == s.notified
           && (t.lock.Replenishing? <==> s.lock.Replenishing?);
    SourceMeans(s);
    SourceMeans(t);
    assert NoneReturning(s.at) <==> NoneReturning(t.at);
  }

  predicate CanStrand(l: Label) {
    l.AcquireEnter? || l.AcquireResume? || l.CancelNotified? || l.GrowBegins?
  }

  lemma CanStrandIff(cfg: Config, s: State, l: Label)
    requires Inv(cfg, s) && Enabled(cfg, s, l) && !s.f.stopped && CanStrand(l)
    ensures Stranded(Step(cfg, s, l)) <==> Strands(cfg, s, l)
  {
    if l.AcquireEnter? { EnterStrandsIff(cfg, s, l.call); }
    else if l.AcquireResume? { ResumeStrandsIff(cfg, s, l.index); }
    else if l.CancelNotified? { CancelStrandsIff(cfg, s, l.index); }
    else { GrowStrandsIff(cfg, s); }
  }

  lemma OthersStrandNobody(cfg: Config, s: State, l: Label)
    requires Inv(cfg, s) && Enabled(cfg, s, l) && !s.f.stopped && !Stranded(s) && !CanStrand(l)
    ensures !Stranded(Step(cfg, s, l))
  {
    if l.ReleaseCounts? { ReleaseStrandsNobody(cfg, s, l.worker); }
    else if Wakes(l) { WakingStrandsNobody(cfg, s, l); }
    else if Returns(l) { ReturningStrandsNobody(cfg, s, l); }
    else if Aside(l) { AsideStrandsNobody(cfg, s, l); }
    else { OnlyAfterStop(cfg, s, l); }
  }

  /** Exactly when the promise breaks: a step of an open pool forgets the parked requests
      if and only if its guard holds. A request that arrives or wakes finds the pool full
      of workers that nobody will bring back, or gives up on a failed spawn while others
      wait; the only wake-up is cancelled; or the last grow finds no room. No other
      step does, whatever the state. */
  lemma StrandsIff(cfg: Config, s: State, l: Label)
    requires Inv(cfg, s) && Enabled(cfg, s, l) && !s.f.stopped && !Stranded(s)
    ensures Stranded(Step(cfg, s, l)) <==> Strands(cfg, s, l)
  {
    if CanStrand(l) { CanStrandIff(cfg, s, l); } else { OthersStrandNobody(cfg, s, l); }
  }

  predicate Shutting(l: Label) {
    l.SpawnCancelled? || l.GrowCancelled? || l.ReleaseCancelled? || l.StopSnapshots? || l.StopCloses? || l.StopKills?
    || l.StopCounts? || l.StopInterrupted?
  }

  lemma OnlyAfterStop(cfg: Config, s: State, l: Label)
    requires ShutdownOrder(s) && Enabled(cfg, s, l) && Shutting(l)
    ensures s.f.stopped
  {
  }

  // ---- over runs ----

  /** Some step of the run takes place under its guard. */
  ghost predicate SomewhereStrands(cfg: Config, s: State, labels: seq<Label>)
    requires Runs(cfg, s, labels)
    decreases |labels|
  {
    labels != [] && (Strands(cfg, s, labels[0]) || SomewhereStrands(cfg, Step(cfg, s, labels[0]), labels[1..]))
  }

  /** So in a run of an open pool nobody is ever forgotten except by such a step. */
  lemma {:induction false} ForgottenOnlyByGuard(cfg: Config, s: State, labels: seq<Label>)
    requires Inv(cfg, s) && !s.f.stopped && !Stranded(s) && Runs(cfg, s, labels) && StopBegins !in labels
    ensures Stranded(After(cfg, s, labels)) ==> SomewhereStrands(cfg, s, labels)
    decreases |labels|
  {
    if labels != [] {
      StrandsIff(cfg, s, labels[0]);
      StepKeepsInv(cfg, s, labels[0]);
      OpenStays(cfg, s, labels[0]);
      if !Strands(cfg, s, labels[0]) {
        ForgottenOnlyByGuard(cfg, Step(cfg, s, labels[0]), labels[1..]);
      }
    }
  }

  // ---- where a cancelled wait passes its wake-up on ----

  /** Whoever leaves passes a wake-up on. */
  predicate Relaying(l: Label) {
    l.CancelledLeaves? ==> l.relays
  }

  lemma LeavingMoves(cfg: Config, s: State, l: Label)
    requires Enabled(cfg, s, l) && !Asks(l)
    ensures |Step(cfg, s, l).leaving| == |s.leaving|
            + (if l.CancelParked? || l.CancelNotified? then 1
               else if l.CancelledLeaves? then -1 else 0)
  {
  }

  lemma AskingLeavesNobody(cfg: Config, s: State, l: Label)
    requires Enabled(cfg, s, l) && Asks(l)
    ensures Step(cfg, s, l).leaving == s.leaving
  {
  }

  /** Forsaken means stranded with nobody about to leave. */
  lemma StrandedButForLeaving(cfg: Config, s: State, l: Label)
    requires Inv(cfg, s) && Enabled(cfg, s, l) && !s.f.stopped && Stranded(s) && s.leaving != [] && Relaying(l)
    ensures !Forsaken(Step(cfg, s, l))
  {
    if l.CancelledLeaves? {
      WakingStrandsNobody(cfg, s, l);
    } else if Asks(l) {
      AskingLeavesNobody(cfg, s, l);
    } else {
      LeavingMoves(cfg, s, l);
    }
  }

  /** The same, where cancelled wake-ups are passed on: a step of an open pool leaves the
      parked requests with nothing to wake them, now or when somebody leaves, if and only
      if its guard holds, nobody is leaving, and it is not itself a cancellation. */
  lemma ForsakesIff(cfg: Config, s: State, l: Label)
    requires Inv(cfg, s) && Enabled(cfg, s, l) && !s.f.stopped && !Forsaken(s) && Relaying(l)
    ensures Forsaken(Step(cfg, s, l)) <==> Strands(cfg, s, l) && s.leaving == [] && !l.CancelNotified?
  {
    if Stranded(s) {
      StrandedButForLeaving(cfg, s, l);
    } else {
      StrandsIff(cfg, s, l);
      if Asks(l) { AskingLeavesNobody(cfg, s, l); } else { LeavingMoves(cfg, s, l); }
    }
  }

  /** Some step of the run forsakes the parked requests. */
  ghost predicate SomewhereForsakes(cfg: Config, s: State, labels: seq<Label>)
    requires Runs(cfg, s, labels)
    decreases |labels|
  {
    labels != []
    && ((Strands(cfg, s, labels[0]) && s.leaving == [] && !labels[0].CancelNotified?)
        || SomewhereForsakes(cfg, Step(cfg, s, labels[0]), labels[1..]))
  }

  /** So there only such a step ever forgets anybody for good. */
  lemma {:induction false} ForsakenOnlyByGuard(cfg: Config, s: State, labels: seq<Label>)
    requires Inv(cfg, s) && !s.f.stopped && !Forsaken(s) && Runs(cfg, s, labels) && StopBegins !in labels
    requires forall l :: l in labels ==> Relaying(l)
    ensures Forsaken(After(cfg, s, labels)) ==> SomewhereForsakes(cfg, s, labels)
    decreases |labels|
  {
    if labels != [] {
      ForsakesIff(cfg, s, labels[0]);
      StepKeepsInv(cfg, s, labels[0]);
      OpenStays(cfg, s, labels[0]);
      if !Forsaken(Step(cfg, s, labels[0])) {
        ForsakenOnlyByGuard(cfg, Step(cfg, s, labels[0]), labels[1..]);
      }
    }
  }

  // ---- two consequences ----

  /** A failed spawn wakes one waiter, which then looks again. Exactly when that leaves
      the others, or the waiter itself, stranded. */
  lemma FailedSpawnStrandsIff(cfg: Config, s: State, error: string)
    requires Inv(cfg, s) && Enabled(cfg, s, SpawnFails(error)) && !s.f.stopped && s.parked != []
    ensures var t := Step(cfg, s, SpawnFails(error));
            && Enabled(cfg, t, AcquireResume(|s.notified|))
            && (Stranded(Step(cfg, t, AcquireResume(|s.notified|))) <==>
                 && s.notified == [] && s.grows == 0 && NoneReturning(s.at)
                 && if s.f.idle == [] then |s.parked| >= 2 else FullOfOthers(cfg, s))
  {
    var t := Step(cfg, s, SpawnFails(error));
    StepKeepsInv(cfg, s, SpawnFails(error));
    WakingStrandsNobody(cfg, s, SpawnFails(error));
    StrandsIff(cfg, t, AcquireResume(|s.notified|));
  }

  /** A request that has arrived is stranded at once exactly when it is the guard's case. */
  lemma ArrivalStrandsIff(cfg: Config, s: State, call: nat)
    requires Inv(cfg, s) && Enabled(cfg, s, AcquireEnter(call)) && !s.f.stopped && !Stranded(s)
    ensures Stranded(Step(cfg, s, AcquireEnter(call))) <==>
            s.notified == [] && s.f.pendingGrows == 0 && NoneReturning(s.at) && FullOfOthers(cfg, s)
  {
    StrandsIff(cfg, s, AcquireEnter(call));
  }

  // ---- being stranded is final ----

  /** Steps from outside: a new request, a cancelled one, or the end of the pool. */
  predicate FromOutside(l: Label) {
    l.AcquireEnter? || l.CancelParked? || l.CancelledLeaves? || l.StopCloses? || l.StartSpawned?
  }

  /** Nothing the pool itself still has to do wakes anyone. */
  lemma {:induction false} StrandedForGood(cfg: Config, s: State, labels: seq<Label>)
    requires Inv(cfg, s) && Stranded(s) && Runs(cfg, s, labels)
    requires forall l :: l in labels ==> !FromOutside(l)
    ensures Stranded(After(cfg, s, labels)) && After(cfg, s, labels).parked == s.parked
    decreases |labels|
  {
    if labels != [] {
      StrandedStep(cfg, s, labels[0]);
      StepKeepsInv(cfg, s, labels[0]);
      StrandedForGood(cfg, Step(cfg, s, labels[0]), labels[1..]);
    }
  }

  lemma StrandedStep(cfg: Config, s: State, l: Label)
    requires Inv(cfg, s) && Stranded(s) && Enabled(cfg, s, l) && !FromOutside(l)
    ensures Stranded(Step(cfg, s, l)) && Step(cfg, s, l).parked == s.parked
  {
    if Releases(l) {
      ReleasesReturn(cfg, s, l);
    } else {
      var t := Step(cfg, s, l);
      forall w ensures !Returning(t.at, w) {
        assert !Returning(s.at, w);
      }
    }
  }

  predicate Releases(l: Label) {
    l.ReleaseScheduled? || l.ReleaseKills? || l.ReleaseCounts? || l.ReleaseCancelled?
  }

  lemma ReleasesReturn(cfg: Config, s: State, l: Label)
    requires Enabled(cfg, s, l) && Releases(l)
    ensures exists w :: Returning(s.at, w)
  {
    assert Returning(s.at, l.worker);
  }
}

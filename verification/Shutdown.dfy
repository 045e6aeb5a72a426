/** What stop() leaves behind. */
module Shutdown {
  import opened IdleQueue
  import opened PoolModel
  import opened Ownership
  import opened PoolInvariant
  import opened PoolSteps
  import opened PoolSafety

  /** The workers without a task are those in `left`, and only workers in `out` are with a
      caller. Of those that are being released, stop() waits for the rest. */
  ghost predicate Quiet(s: State, left: seq<nat>, out: set<nat>) {
    && s.f.stopped && s.sweep.NoSweep?
    && Owns(left, s.at, Abandoned)
    && OutSet(s.at) <= out
    && !s.stop.NotStopping?
    && (s.stop.Draining? ==> forall w :: Releasing(s.at, w) ==> w in s.stop.releases || w in out)
    && (s.stop.StopKilling? || s.stop.Stopped? ==> forall w :: Releasing(s.at, w) ==> w in out)
  }

  /** Not cut short: no background spawn or release is cancelled and stop() runs to its end. */
  predicate Undisturbed(l: Label) {
    !l.SpawnCancelled? && !l.ReleaseCancelled? && !l.StopInterrupted?
  }

  lemma QuietWhenAsking(cfg: Config, s: State, l: Label, left: seq<nat>, out: set<nat>)
    requires Inv(cfg, s) && Quiet(s, left, out) && Enabled(cfg, s, l) && Asks(l)
    ensures Quiet(Step(cfg, s, l), left, out)
  {
  }

  /** Nobody new is out, and only a worker that is out can begin to be released. */
  ghost predicate OnlyOutReleases(from: map<nat, Place>, to: map<nat, Place>) {
    OutSet(to) <= OutSet(from) && forall w :: Releasing(to, w) ==> Releasing(from, w) || w in OutSet(from)
  }

  lemma ReleasesOnlyOutWhenSupplying(cfg: Config, s: State, l: Label)
    requires Enabled(cfg, s, l) && Touches(l) && Supplies(l)
    ensures OnlyOutReleases(s.at, Step(cfg, s, l).at)
  {
  }

  lemma ReleasesOnlyOutWhenRetiring(cfg: Config, s: State, l: Label)
    requires Enabled(cfg, s, l) && Touches(l) && Retires(l)
    ensures OnlyOutReleases(s.at, Step(cfg, s, l).at)
  {
  }

  lemma ReleasesOnlyOut(cfg: Config, s: State, l: Label)
    requires Enabled(cfg, s, l) && !Asks(l)
    ensures OnlyOutReleases(s.at, Step(cfg, s, l).at)
  {
    if !Touches(l) { OthersTouchNobody(cfg, s, l); }
    else if Supplies(l) { ReleasesOnlyOutWhenSupplying(cfg, s, l); }
    else { ReleasesOnlyOutWhenRetiring(cfg, s, l); }
  }

  ghost predicate SameLost(a: map<nat, Place>, b: map<nat, Place>) {
    forall w :: (w in a && a[w] == Abandoned) <==> (w in b && b[w] == Abandoned)
  }

  lemma RelabelKeepsLost(cfg: Config, s: State, l: Label)
    requires Lists(s) && Enabled(cfg, s, l) && s.sweep.NoSweep? && (l.StopBegins? || l.StopCloses?)
    ensures SameLost(s.at, Step(cfg, s, l).at)
  {
  }

  lemma SpawnKeepsLost(cfg: Config, s: State, l: Label)
    requires Counted(s) && Enabled(cfg, s, l) && (l.StartSpawned? || l.SpawnSucceeds?)
    ensures SameLost(s.at, Step(cfg, s, l).at)
  {
    assert Step(cfg, s, l).at == s.at[s.next := Idle];
  }

  lemma ReleaseKeepsLost(cfg: Config, s: State, l: Label)
    requires Enabled(cfg, s, l) && (l.ReleaseScheduled? || l.ReleaseKills? || l.ReleaseCounts?)
    ensures SameLost(s.at, Step(cfg, s, l).at)
  {
  }

  lemma CountKeepsLost(cfg: Config, s: State)
    requires Lists(s) && Enabled(cfg, s, StopCounts)
    ensures SameLost(s.at, Step(cfg, s, StopCounts).at)
  {
    assert s.stop.queue[0] in StopQueue(s);
  }

  lemma MoveKeepsLost(cfg: Config, s: State, l: Label)
    requires Counted(s) && Lists(s) && Enabled(cfg, s, l) && s.sweep.NoSweep?
    requires l.StartSpawned? || l.SpawnSucceeds? || l.ReleaseScheduled? || l.ReleaseKills?
             || l.ReleaseCounts? || l.StopCounts?
    ensures SameLost(s.at, Step(cfg, s, l).at)
  {
    if l.StopCounts? { CountKeepsLost(cfg, s); }
    else if l.StartSpawned? || l.SpawnSucceeds? { SpawnKeepsLost(cfg, s, l); }
    else { ReleaseKeepsLost(cfg, s, l); }
  }

  /** Undisturbed steps after the sweep is gone abandon nobody and rescue nobody. */
  lemma SameAbandoned(cfg: Config, s: State, l: Label)
    requires Custody(s) && Enabled(cfg, s, l) && !Asks(l) && Undisturbed(l) && s.sweep.NoSweep?
    ensures SameLost(s.at, Step(cfg, s, l).at)
  {
    if !Touches(l) { OthersTouchNobody(cfg, s, l); }
    else if l.StopBegins? || l.StopCloses? { RelabelKeepsLost(cfg, s, l); }
    else { MoveKeepsLost(cfg, s, l); }
  }

  /** How far stop() is, against who is still being released. */
  predicate StopMoves(l: Label) {
    l.StopBegins? || l.StopSnapshots? || l.StopCloses? || l.StopKills? || l.StopCounts? || l.StopInterrupted?
  }

  lemma StopIsUntouched(cfg: Config, s: State, l: Label)
    requires ShutdownOrder(s) && s.f.stopped && Enabled(cfg, s, l) && !Asks(l) && !StopMoves(l)
    ensures var t := Step(cfg, s, l); t.f.stopped && t.sweep.NoSweep? && t.stop == s.stop
  {
  }

  /** What stop() still has to see released. */
  ghost predicate InPace(s: State, out: set<nat>) {
    && s.f.stopped && s.sweep.NoSweep? && !s.stop.NotStopping?
    && (s.stop.Draining? ==> forall w :: Releasing(s.at, w) ==> w in s.stop.releases || w in out)
    && (s.stop.StopKilling? || s.stop.Stopped? ==> forall w :: Releasing(s.at, w) ==> w in out)
  }

  lemma StopMovesOn(cfg: Config, s: State, l: Label, out: set<nat>)
    requires InPace(s, out) && OutSet(s.at) <= out && Enabled(cfg, s, l) && StopMoves(l) && Undisturbed(l)
    requires OnlyOutReleases(s.at, Step(cfg, s, l).at)
    ensures InPace(Step(cfg, s, l), out)
  {
  }

  lemma StopKeepsPace(cfg: Config, s: State, l: Label, out: set<nat>)
    requires ShutdownOrder(s) && InPace(s, out) && OutSet(s.at) <= out
    requires Enabled(cfg, s, l) && !Asks(l) && Undisturbed(l) && OnlyOutReleases(s.at, Step(cfg, s, l).at)
    ensures InPace(Step(cfg, s, l), out)
  {
    if StopMoves(l) { StopMovesOn(cfg, s, l, out); } else { StopIsUntouched(cfg, s, l); }
  }

  lemma QuietStep(cfg: Config, s: State, l: Label, left: seq<nat>, out: set<nat>)
    requires Inv(cfg, s) && Quiet(s, left, out) && Enabled(cfg, s, l) && !Asks(l) && Undisturbed(l)
    ensures Quiet(Step(cfg, s, l), left, out)
  {
    ReleasesOnlyOut(cfg, s, l);
    SameAbandoned(cfg, s, l);
    Unaffected(left, s.at, Step(cfg, s, l).at, Abandoned);
    StopKeepsPace(cfg, s, l, out);
  }

  lemma QuietBegins(cfg: Config, s: State)
    requires Inv(cfg, s) && Enabled(cfg, s, StopBegins) && forall w :: w in s.at ==> !s.at[w].Abandoned?
    ensures Quiet(Step(cfg, s, StopBegins), SweepQueue(s), OutSet(s.at))
  {
    ReleasesOnlyOut(cfg, s, StopBegins);
  }

  lemma {:induction false} QuietRun(cfg: Config, s: State, labels: seq<Label>, left: seq<nat>, out: set<nat>)
    requires Inv(cfg, s) && Quiet(s, left, out) && Runs(cfg, s, labels)
    requires forall l :: l in labels ==> Undisturbed(l)
    ensures Inv(cfg, After(cfg, s, labels)) && Quiet(After(cfg, s, labels), left, out)
    decreases |labels|
  {
    if labels != [] {
      if Asks(labels[0]) {
        QuietWhenAsking(cfg, s, labels[0], left, out);
      } else {
        QuietStep(cfg, s, labels[0], left, out);
      }
      StepKeepsInv(cfg, s, labels[0]);
      QuietRun(cfg, Step(cfg, s, labels[0]), labels[1..], left, out);
    }
  }

  lemma StoppedPlaces(cfg: Config, t: State, left: seq<nat>, out: set<nat>)
    requires Inv(cfg, t) && Quiet(t, left, out) && t.stop.Stopped?
    ensures Holding(t.at, Idle) == {} && Holding(t.at, Swept) == {} && Holding(t.at, Doomed) == {}
    ensures Holding(t.at, Abandoned) == ToSet(left) && |ToSet(left)| == |left|
    ensures ReleasingSet(t.at) <= out
  {
    OwnsAll(WorkerIds(t.f.idle), t.at, Idle);
    OwnsAll(SweepQueue(t), t.at, Swept);
    OwnsAll(StopQueue(t), t.at, Doomed);
    OwnsAll(left, t.at, Abandoned);
    CountDistinct(left);
  }

  lemma StoppedLeaves(cfg: Config, t: State, left: seq<nat>, out: set<nat>)
    requires Inv(cfg, t) && Quiet(t, left, out) && t.stop.Stopped?
    ensures t.at.Keys == ToSet(left) + OutSet(t.at) + ReleasingSet(t.at)
    ensures t.f.total == |left| + |OutSet(t.at)| + |ReleasingSet(t.at)|
    ensures OutSet(t.at) + ReleasingSet(t.at) <= out && t.live <= t.at.Keys
  {
    StoppedPlaces(cfg, t, left, out);
    Partition(t.at);
    forall w | w in t.at ensures w in ToSet(left) + OutSet(t.at) + ReleasingSet(t.at) {
      assert t.at[w].Abandoned? ==> w in Holding(t.at, Abandoned);
      assert t.at[w].Idle? ==> w in Holding(t.at, Idle);
      assert t.at[w].Swept? ==> w in Holding(t.at, Swept);
      assert t.at[w].Doomed? ==> w in Holding(t.at, Doomed);
    }
  }

  /** What stop() leaves, in full: from any reachable state in which nobody is abandoned
      yet, if stop() runs undisturbed to its end, the pool then counts exactly the workers
      that an interrupted sweep still had to kill, those still out, and those that were
      handed back too late for stop() to wait for. All of the latter were out when it
      began, and everyone else who was counted is gone. */
  lemma StopLeaves(cfg: Config, s: State, labels: seq<Label>)
    requires Reachable(cfg, s) && Enabled(cfg, s, StopBegins) && forall w :: w in s.at ==> !s.at[w].Abandoned?
    requires Runs(cfg, Step(cfg, s, StopBegins), labels) && forall l :: l in labels ==> Undisturbed(l)
    requires After(cfg, Step(cfg, s, StopBegins), labels).stop.Stopped?
    ensures var t := After(cfg, Step(cfg, s, StopBegins), labels);
            && t.at.Keys == ToSet(SweepQueue(s)) + OutSet(t.at) + ReleasingSet(t.at)
            && t.f.total == |SweepQueue(s)| + |OutSet(t.at)| + |ReleasingSet(t.at)|
            && OutSet(t.at) + ReleasingSet(t.at) <= OutSet(s.at) && t.live <= t.at.Keys
            && (forall w :: w in OutSet(s.at) && ReleaseScheduled(w) !in labels ==> w in OutSet(t.at))
  {
    ReachableInv(cfg, s);
    QuietBegins(cfg, s);
    StepKeepsInv(cfg, s, StopBegins);
    var b := Step(cfg, s, StopBegins);
    QuietRun(cfg, b, labels, SweepQueue(s), OutSet(s.at));
    StoppedLeaves(cfg, After(cfg, b, labels), SweepQueue(s), OutSet(s.at));
    forall w | w in OutSet(s.at) && ReleaseScheduled(w) !in labels ensures w in OutSet(After(cfg, b, labels).at) {
      OutStays(cfg, s, StopBegins, w);
      BusyIsLeftAlone(cfg, b, labels, w);
    }
  }

  lemma SweepQueueEmpty(cfg: Config, s: State)
    requires Inv(cfg, s)
    ensures |SweepQueue(s)| == 0 <==> !s.sweep.SweepKilling?
  {
  }

  lemma AllStayOut(out: set<nat>, at: map<nat, Place>)
    requires out <= OutSet(at) && OutSet(at) + ReleasingSet(at) <= out
    ensures OutSet(at) == out && ReleasingSet(at) == {}
  {
    assert OutSet(at) !! ReleasingSet(at);
  }

  /** If no worker is handed back meanwhile, that is exactly the interrupted sweep's
      victims and the workers that were out; nobody is left if and only if there were
      neither. */
  lemma StopLeavesSweptAndOut(cfg: Config, s: State, labels: seq<Label>)
    requires Reachable(cfg, s) && Enabled(cfg, s, StopBegins) && forall w :: w in s.at ==> !s.at[w].Abandoned?
    requires Runs(cfg, Step(cfg, s, StopBegins), labels)
             && forall l :: l in labels ==> Undisturbed(l) && !l.ReleaseScheduled?
    requires After(cfg, Step(cfg, s, StopBegins), labels).stop.Stopped?
    ensures var t := After(cfg, Step(cfg, s, StopBegins), labels);
            && t.at.Keys == ToSet(SweepQueue(s)) + OutSet(s.at) && t.live <= t.at.Keys
            && t.f.total == |SweepQueue(s)| + |OutSet(s.at)|
            && (t.f.total == 0 <==> !s.sweep.SweepKilling? && OutSet(s.at) == {})
  {
    StopLeaves(cfg, s, labels);
    AllStayOut(OutSet(s.at), After(cfg, Step(cfg, s, StopBegins), labels).at);
    ReachableInv(cfg, s);
    SweepQueueEmpty(cfg, s);
  }

  /** When stop() begins with every worker handed back and runs undisturbed to its end,
      whatever else happens meanwhile, the pool ends up counting exactly the workers
      that an interrupted sweep still had to kill, and nothing else can be alive. In
      particular the count is zero if and only if no sweep was mid-kill. */
  lemma StopLeavesOnlyTheInterruptedSweep(cfg: Config, s: State, labels: seq<Label>)
    requires Reachable(cfg, s) && Enabled(cfg, s, StopBegins)
    requires forall w :: w in s.at ==> !s.at[w].Out? && !s.at[w].Abandoned?
    requires Runs(cfg, Step(cfg, s, StopBegins), labels) && forall l :: l in labels ==> Undisturbed(l)
    requires After(cfg, Step(cfg, s, StopBegins), labels).stop.Stopped?
    ensures var t := After(cfg, Step(cfg, s, StopBegins), labels);
            && t.at.Keys == ToSet(SweepQueue(s)) && t.f.total == |SweepQueue(s)| && t.live <= ToSet(SweepQueue(s))
            && (t.f.total == 0 <==> !s.sweep.SweepKilling?)
            && (!s.sweep.SweepKilling? ==> t.live == {} && t.at == map[])
  {
    assert OutSet(s.at) == {};
    StopLeaves(cfg, s, labels);
    var t := After(cfg, Step(cfg, s, StopBegins), labels);
    assert OutSet(t.at) == {} && ReleasingSet(t.at) == {};
    ReachableInv(cfg, s);
    SweepQueueEmpty(cfg, s);
  }

  // ---- a worker whose task was cancelled ----

  lemma AbandonedWhenSupplying(cfg: Config, s: State, l: Label, w: nat)
    requires Counted(s) && Enabled(cfg, s, l) && w in s.at && s.at[w].Abandoned? && Supplies(l)
    ensures var t := Step(cfg, s, l);
            w in t.at && t.at[w].Abandoned? && (l != WorkerDies(w) && w in s.live ==> w in t.live)
  {
  }

  predicate Killing(l: Label) {
    l.SweepKills? || l.SweepCounts? || l.StopKills? || l.StopCounts?
  }

  lemma AbandonedWhenKilling(cfg: Config, s: State, l: Label, w: nat)
    requires Lists(s) && Enabled(cfg, s, l) && w in s.at && s.at[w].Abandoned? && Killing(l)
    ensures var t := Step(cfg, s, l); w in t.at && t.at[w].Abandoned? && (w in s.live ==> w in t.live)
  {
    assert w !in SweepQueue(s) && w !in StopQueue(s);
    if l.SweepKills? || l.SweepCounts? {
      assert s.sweep.queue[0] in SweepQueue(s);
    } else {
      assert s.stop.queue[0] in StopQueue(s);
    }
  }

  lemma AbandonedWhenRetiring(cfg: Config, s: State, l: Label, w: nat)
    requires Inv(cfg, s) && Enabled(cfg, s, l) && w in s.at && s.at[w].Abandoned? && Retires(l) && !Killing(l)
    ensures var t := Step(cfg, s, l); w in t.at && t.at[w].Abandoned? && (w in s.live ==> w in t.live)
  {
    KillListIsIdle(cfg, s);
    assert w !in WorkerIds(s.f.idle) && w !in SweepQueue(s) && w !in StopQueue(s);
  }

  lemma AbandonedStep(cfg: Config, s: State, l: Label, w: nat)
    requires Inv(cfg, s) && Enabled(cfg, s, l) && w in s.at && s.at[w].Abandoned? && !Asks(l)
    ensures var t := Step(cfg, s, l);
            w in t.at && t.at[w].Abandoned? && (l != WorkerDies(w) && w in s.live ==> w in t.live)
  {
    if Supplies(l) { AbandonedWhenSupplying(cfg, s, l, w); }
    else if Killing(l) { AbandonedWhenKilling(cfg, s, l, w); }
    else { AbandonedWhenRetiring(cfg, s, l, w); }
  }

  lemma AbandonedInTurn(cfg: Config, s: State, call: nat, w: nat)
    requires Custody(s) && w in s.at && s.at[w].Abandoned?
    ensures var t := LoopTop(cfg, s, call).next; w in t.at && t.at[w].Abandoned? && t.live == s.live
  {
    var d := DeadPrefix(s.f.idle, s.live);
    var ids := WorkerIds(s.f.idle);
    assert WorkerIds(s.f.idle[..d]) == ids[..d];
    SplitDistinct(ids, d);
    assert w !in ids;
    if d < |s.f.idle| { assert ids[d] in ids; }
  }

  lemma AbandonedWhenAsking(cfg: Config, s: State, l: Label, w: nat)
    requires Inv(cfg, s) && Enabled(cfg, s, l) && w in s.at && s.at[w].Abandoned? && Asks(l)
    ensures var t := Step(cfg, s, l); w in t.at && t.at[w].Abandoned? && (w in s.live ==> w in t.live)
  {
    if l.AcquireEnter? {
      AbandonedInTurn(cfg, s, l.call, w);
    } else {
      WokenKeeps(cfg, s, l.index);
      AbandonedInTurn(cfg, Woken(s, l.index), s.notified[l.index].call, w);
    }
  }

  /** The pool never repairs it: such a worker is counted in every later state, and if
      it was alive it stays alive until it dies on its own. */
  lemma {:induction false} AbandonedForever(cfg: Config, s: State, labels: seq<Label>, w: nat)
    requires Inv(cfg, s) && Runs(cfg, s, labels) && w in s.at && s.at[w].Abandoned?
    ensures var t := After(cfg, s, labels);
            && w in t.at && t.at[w].Abandoned? && t.f.total > 0
            && (w in s.live && WorkerDies(w) !in labels ==> w in t.live)
    decreases |labels|
  {
    if labels != [] {
      if Asks(labels[0]) { AbandonedWhenAsking(cfg, s, labels[0], w); } else { AbandonedStep(cfg, s, labels[0], w); }
      StepKeepsInv(cfg, s, labels[0]);
      AbandonedForever(cfg, Step(cfg, s, labels[0]), labels[1..], w);
    } else {
      assert |s.at.Keys| > 0;
    }
  }

  /** Stopping the pool while a sweep is killing abandons every worker the sweep had
      not yet un-counted: they count for ever, and those it had not reached live on. */
  lemma StopMidSweepAbandons(cfg: Config, s: State, labels: seq<Label>, i: nat)
    requires Reachable(cfg, s) && Enabled(cfg, s, StopBegins) && i < |SweepQueue(s)|
    requires Runs(cfg, Step(cfg, s, StopBegins), labels)
    ensures var w := SweepQueue(s)[i];
            var t := After(cfg, Step(cfg, s, StopBegins), labels);
            && w in t.at && t.at[w].Abandoned? && t.f.total > 0
            && (w in s.live && WorkerDies(w) !in labels ==> w in t.live)
  {
    ReachableInv(cfg, s);
    var w := SweepQueue(s)[i];
    assert w in SweepQueue(s);
    StepKeepsInv(cfg, s, StopBegins);
    AbandonedForever(cfg, Step(cfg, s, StopBegins), labels, w);
  }

  // ---- a worker that is still out ----

  lemma StillOut(from: map<nat, Place>, to: map<nat, Place>, w: nat)
    requires SameOut(from, to) && w in from && from[w].Out?
    ensures w in to && to[w] == from[w]
  {
    assert from[w] == Out(from[w].call);
  }

  lemma OutInTurn(cfg: Config, s: State, call: nat, w: nat)
    requires Custody(s) && w in s.at && s.at[w].Out?
    ensures var t := LoopTop(cfg, s, call).next; w in t.at && t.at[w] == s.at[w]
  {
    LoopTopOut(cfg, s, call);
    var t := LoopTop(cfg, s, call);
    StillOut(if t.answer.Got? then s.at[t.answer.worker.id := Out(call)] else s.at, t.next.at, w);
  }

  lemma OutStays(cfg: Config, s: State, l: Label, w: nat)
    requires Inv(cfg, s) && Enabled(cfg, s, l) && w in s.at && s.at[w].Out? && l != ReleaseScheduled(w)
    ensures w in Step(cfg, s, l).at && Step(cfg, s, l).at[w] == s.at[w]
  {
    if l.AcquireEnter? {
      OutInTurn(cfg, s, l.call, w);
    } else if l.AcquireResume? {
      WokenKeeps(cfg, s, l.index);
      OutInTurn(cfg, Woken(s, l.index), s.notified[l.index].call, w);
    } else if !l.ReleaseScheduled? {
      OthersKeepOut(cfg, s, l);
      StillOut(s.at, Step(cfg, s, l).at, w);
    }
  }

  predicate Kills(l: Label) {
    l.WorkerDies? || l.ReleaseKills? || l.SweepKills? || l.StopKills?
  }

  lemma OthersKillNobodyWhenSupplying(cfg: Config, s: State, l: Label)
    requires Enabled(cfg, s, l) && !Kills(l) && !Asks(l)
    requires Supplies(l)
    ensures s.live <= Step(cfg, s, l).live
  {
  }

  lemma OthersKillNobodyWhenRetiring(cfg: Config, s: State, l: Label)
    requires Enabled(cfg, s, l) && !Kills(l) && !Asks(l)
    requires Retires(l)
    ensures s.live <= Step(cfg, s, l).live
  {
  }

  lemma OthersKillNobody(cfg: Config, s: State, l: Label)
    requires Enabled(cfg, s, l) && !Kills(l) && !Asks(l)
    ensures s.live <= Step(cfg, s, l).live
  {
    if Supplies(l) { OthersKillNobodyWhenSupplying(cfg, s, l); } else { OthersKillNobodyWhenRetiring(cfg, s, l); }
  }

  lemma AskingKillsNobody(cfg: Config, s: State, l: Label)
    requires Enabled(cfg, s, l) && Asks(l)
    ensures s.live == Step(cfg, s, l).live
  {
  }

  lemma OutLivesOn(cfg: Config, s: State, l: Label, w: nat)
    requires Inv(cfg, s) && Enabled(cfg, s, l) && w in s.at && s.at[w].Out? && w in s.live && l != WorkerDies(w)
    ensures w in Step(cfg, s, l).live
  {
    if Asks(l) { AskingKillsNobody(cfg, s, l); }
    else if l.SweepKills? { assert s.sweep.queue[0] in SweepQueue(s); }
    else if l.StopKills? { assert s.stop.queue[0] in StopQueue(s); }
    else if !Kills(l) { OthersKillNobody(cfg, s, l); }
  }

  /** stop() leaves busy workers alone: whatever else happens, a worker that is out stays
      with its caller, counted, and alive unless it dies by itself, until it is released. */
  lemma {:induction false} BusyIsLeftAlone(cfg: Config, s: State, labels: seq<Label>, w: nat)
    requires Inv(cfg, s) && Runs(cfg, s, labels) && w in s.at && s.at[w].Out? && ReleaseScheduled(w) !in labels
    ensures var t := After(cfg, s, labels);
            && w in t.at && t.at[w] == s.at[w] && t.f.total > 0
            && (w in s.live && WorkerDies(w) !in labels ==> w in t.live)
    decreases |labels|
  {
    if labels != [] {
      OutStays(cfg, s, labels[0], w);
      if w in s.live && labels[0] != WorkerDies(w) { OutLivesOn(cfg, s, labels[0], w); }
      StepKeepsInv(cfg, s, labels[0]);
      BusyIsLeftAlone(cfg, Step(cfg, s, labels[0]), labels[1..], w);
    } else {
      assert w in s.at.Keys;
    }
  }

  // ---- before the first stop() ----

  /** Only shutting down ever abandons a worker. */
  ghost predicate OpenIsWhole(s: State) {
    !s.f.stopped ==> s.stop.NotStopping? && forall w :: w in s.at ==> !s.at[w].Abandoned?
  }

  lemma OpenStepWhenSupplying(cfg: Config, s: State, l: Label)
    requires OpenIsWhole(s) && Enabled(cfg, s, l) && !Asks(l)
    requires Supplies(l)
    ensures OpenIsWhole(Step(cfg, s, l))
  {
  }

  lemma OpenStepWhenRetiring(cfg: Config, s: State, l: Label)
    requires OpenIsWhole(s) && Enabled(cfg, s, l) && !Asks(l)
    requires Retires(l)
    ensures OpenIsWhole(Step(cfg, s, l))
  {
  }

  lemma OpenStep(cfg: Config, s: State, l: Label)
    requires OpenIsWhole(s) && Enabled(cfg, s, l) && !Asks(l)
    ensures OpenIsWhole(Step(cfg, s, l))
  {
    if Supplies(l) { OpenStepWhenSupplying(cfg, s, l); } else { OpenStepWhenRetiring(cfg, s, l); }
  }

  lemma OpenWhenAsking(cfg: Config, s: State, l: Label)
    requires OpenIsWhole(s) && Enabled(cfg, s, l) && Asks(l)
    ensures OpenIsWhole(Step(cfg, s, l))
  {
  }

  lemma {:induction false} OpenRun(cfg: Config, s: State, labels: seq<Label>)
    requires OpenIsWhole(s) && Runs(cfg, s, labels)
    ensures OpenIsWhole(After(cfg, s, labels))
    decreases |labels|
  {
    if labels != [] {
      if Asks(labels[0]) { OpenWhenAsking(cfg, s, labels[0]); } else { OpenStep(cfg, s, labels[0]); }
      OpenRun(cfg, Step(cfg, s, labels[0]), labels[1..]);
    }
  }

  /** While the pool is open no worker is abandoned: every one that is counted has a
      task, or the idle queue, that answers for it. */
  lemma NobodyAbandonedWhileOpen(cfg: Config, s: State)
    requires Reachable(cfg, s) && !s.f.stopped
    ensures s.stop.NotStopping? && forall w :: w in s.at ==> !s.at[w].Abandoned?
  {
    var labels, now :| Runs(cfg, Initial(cfg, now), labels) && After(cfg, Initial(cfg, now), labels) == s;
    OpenRun(cfg, Initial(cfg, now), labels);
  }
}

/** The daemon's shutdown, and what is final about a finished job. */
module DaemonShutdown {
  import opened Wrappers
  import Jobs
  import Runner
  import opened PoolModel
  import opened PoolInvariant
  import opened PoolSafety
  import opened Shutdown
  import opened PoolSteps
  import opened Daemon
  import opened DaemonSafety

  // ---- a run of the daemon is a run of its pool ----

  function Projection(conf: Settings, s: System, events: seq<Event>): seq<Label>
    requires Happens(conf, s, events)
    decreases |events|
  {
    if events == [] then []
    else
      (if PoolLabel(events[0], s).Some? then [PoolLabel(events[0], s).value] else [])
      + Projection(conf, Next(conf, s, events[0]), events[1..])
  }

  lemma PoolMoves(conf: Settings, s: System, e: Event)
    requires May(conf, s, e)
    ensures Next(conf, s, e).pool == PoolAfter(conf, s, e)
  {
  }

  lemma {:induction false} Projects(conf: Settings, s: System, events: seq<Event>)
    requires Happens(conf, s, events)
    ensures var labels := Projection(conf, s, events);
            && Runs(conf.pool, s.pool, labels) && After(conf.pool, s.pool, labels) == Then(conf, s, events).pool
            && forall l :: l in labels ==> Background(l) in events || !Own(l)
    decreases |events|
  {
    if events != [] {
      var e, rest := events[0], events[1..];
      PoolMoves(conf, s, e);
      Projects(conf, Next(conf, s, e), rest);
      var tail := Projection(conf, Next(conf, s, e), rest);
      assert events == [e] + rest;
      if PoolLabel(e, s).Some? {
        var l := PoolLabel(e, s).value;
        assert ([l] + tail)[1..] == tail;
      } else {
        assert [] + tail == tail;
      }
    }
  }

  lemma AttainablePool(conf: Settings, s: System)
    requires Attainable(conf, s)
    ensures Reachable(conf.pool, s.pool)
  {
    var now, events :| Happens(conf, Initially(conf, now), events) && Then(conf, Initially(conf, now), events) == s;
    Projects(conf, Initially(conf, now), events);
  }

  // ---- jobs.shutdown() ----

  lemma ClosingMovesTo(conf: Settings, s: System, e: Event)
    requires May(conf, s, e) && Closes(e)
    ensures var t := Next(conf, s, e); t.closing == ClosingAfter(s, e) && t.tasks == s.tasks && t.nextId == s.nextId
  {
  }

  lemma OthersKeepClosing(conf: Settings, s: System, e: Event)
    requires May(conf, s, e) && !Closes(e)
    ensures Next(conf, s, e).closing == s.closing
  {
  }

  lemma ClosingMoves(conf: Settings, s: System, e: Event)
    requires May(conf, s, e)
    ensures Next(conf, s, e).closing == ClosingAfter(s, e)
    ensures Closes(e) ==> Next(conf, s, e).tasks == s.tasks && Next(conf, s, e).nextId == s.nextId
    ensures !Closes(e) ==> ClosingAfter(s, e) == s.closing && !StopsPool(s, e)
  {
    if Closes(e) { ClosingMovesTo(conf, s, e); } else { OthersKeepClosing(conf, s, e); }
  }

  /** No event but a submit adds a job task, and a submit's is a new one. */
  lemma JobTasksStep(conf: Settings, s: System, e: Event)
    requires May(conf, s, e)
    ensures JobTasks(Next(conf, s, e).tasks) <= JobTasks(s.tasks) + (if e.Submit? then {s.nextId} else {})
    ensures s.nextId <= Next(conf, s, e).nextId
  {
    if e.Ask? || e.Look? { AnsweredTasks(conf, s, e); }
  }

  lemma AnsweredTasks(conf: Settings, s: System, e: Event)
    requires May(conf, s, e) && (e.Ask? || e.Look?)
    ensures JobTasks(Next(conf, s, e).tasks) <= JobTasks(s.tasks) && s.nextId == Next(conf, s, e).nextId
  {
  }

  predicate NoSubmit(events: seq<Event>) {
    forall e :: e in events ==> !e.Submit?
  }

  predicate Ending(c: Closing) {
    c.StoppingPool? || c.BrokenOff?
  }

  lemma {:induction false} EndingStays(conf: Settings, s: System, events: seq<Event>)
    requires Happens(conf, s, events) && Ending(s.closing)
    ensures Ending(Then(conf, s, events).closing)
    decreases |events|
  {
    if events != [] {
      ClosingMoves(conf, s, events[0]);
      EndingStays(conf, Next(conf, s, events[0]), events[1..]);
    }
  }

  /** While jobs.shutdown() waits, its snapshot stays what it was, and every job task
      outside it was submitted after it. */
  lemma {:induction false} TellingRun(conf: Settings, s: System, events: seq<Event>, told: set<nat>, since: nat)
    requires Happens(conf, s, events) && s.closing == Telling(told) && since <= s.nextId
    requires forall id :: id in JobTasks(s.tasks) ==> id in told || id >= since
    requires Then(conf, s, events).closing.Telling?
    ensures var u := Then(conf, s, events);
            && u.closing == Telling(told)
            && (forall id :: id in JobTasks(u.tasks) ==> id in told || id >= since)
            && (NoSubmit(events) ==> JobTasks(u.tasks) <= JobTasks(s.tasks))
    decreases |events|
  {
    if events != [] {
      var e, t := events[0], Next(conf, s, events[0]);
      ClosingMoves(conf, s, e);
      JobTasksStep(conf, s, e);
      assert events == [e] + events[1..];
      if Ending(t.closing) {
        EndingStays(conf, t, events[1..]);
      }
      TellingRun(conf, t, events[1..], told, since);
    }
  }

  /** jobs.shutdown() begins with the event `b` in state `s` and returns with the event `e`
      in state `v`, in which pool.stop() is about to begin. With nobody to wait for it
      does not suspend: that is one and the same event. */
  ghost predicate JobsShutDown(conf: Settings, s: System, b: Event, during: seq<Event>, v: System, e: Event) {
    && May(conf, s, b) && BeginsJobs(b)
    && May(conf, v, e) && StopsPool(v, e)
    && if StopsPool(s, b) then during == [] && v == s && e == b
       else Happens(conf, Next(conf, s, b), during) && v == Then(conf, Next(conf, s, b), during) && e.ShutdownEnds?
  }

  /** What jobs.shutdown() has achieved when it returns, whatever happens while it waits:
      every job task it told to stop has ended. A job task that is left was submitted
      after it began; with no submit meanwhile, or with nobody to wait for, there is none
      at all. */
  lemma ShutdownWaitsForItsSnapshot(conf: Settings, s: System, b: Event, during: seq<Event>, v: System, e: Event)
    requires JobsShutDown(conf, s, b, during, v, e)
    ensures JobTasks(s.tasks) !! JobTasks(v.tasks)
    ensures forall id :: id in JobTasks(v.tasks) ==> id >= s.nextId
    ensures NoSubmit(during) || JobTasks(s.tasks) == {} ==> JobTasks(v.tasks) == {}
  {
    if !StopsPool(s, b) {
      ClosingMoves(conf, s, b);
      ClosingMoves(conf, v, e);
      TellingRun(conf, Next(conf, s, b), during, JobTasks(s.tasks), s.nextId);
    }
  }

  lemma ShutdownAttains(conf: Settings, s: System, b: Event, during: seq<Event>, v: System, e: Event)
    requires Attainable(conf, s) && JobsShutDown(conf, s, b, during, v, e)
    ensures Attainable(conf, v)
  {
    if !StopsPool(s, b) {
      Extend(conf, s, [b], Next(conf, s, b));
      Extend(conf, Next(conf, s, b), during, v);
    }
  }

  /** And what has become of the jobs it told to stop: no worker is out for any of them,
      and each is finished unless its task had not taken its first step. */
  lemma ToldJobsAreOver(conf: Settings, s: System, b: Event, during: seq<Event>, v: System, e: Event, j: Job)
    requires Attainable(conf, s) && JobsShutDown(conf, s, b, during, v, e)
    requires j.id in JobTasks(s.tasks) && j in v.jobs
    ensures j.Terminal() || j.id in v.unborn
    ensures forall w :: w in v.pool.at ==> v.pool.at[w] != Out(j.id)
  {
    ToldIsGone(conf, s, b, during, v, e, j.id);
    ShutdownAttains(conf, s, b, during, v, e);
    CancelIsAFact(conf, v, j);
  }

  lemma ToldIsGone(conf: Settings, s: System, b: Event, during: seq<Event>, v: System, e: Event, id: nat)
    requires JobsShutDown(conf, s, b, during, v, e) && id in JobTasks(s.tasks)
    ensures id !in v.tasks
  {
    SnapshotStays(conf, s, b, during, v);
    ReturnsWhenGone(conf, v, e);
  }

  lemma SnapshotStays(conf: Settings, s: System, b: Event, during: seq<Event>, v: System)
    requires May(conf, s, b) && BeginsJobs(b) && !StopsPool(s, b) && Happens(conf, Next(conf, s, b), during)
    requires v == Then(conf, Next(conf, s, b), during) && v.closing.Telling?
    ensures v.closing == Telling(JobTasks(s.tasks))
  {
    ClosingMoves(conf, s, b);
    TellingRun(conf, Next(conf, s, b), during, JobTasks(s.tasks), s.nextId);
  }

  lemma ReturnsWhenGone(conf: Settings, v: System, e: Event)
    requires May(conf, v, e) && StopsPool(v, e) && e.ShutdownEnds?
    ensures v.closing.Telling? && forall id :: id in v.closing.told ==> id !in v.tasks
  {
  }

  lemma {:induction false} Append(conf: Settings, s: System, a: seq<Event>, b: seq<Event>)
    requires Happens(conf, s, a) && Happens(conf, Then(conf, s, a), b)
    ensures Happens(conf, s, a + b) && Then(conf, s, a + b) == Then(conf, Then(conf, s, a), b)
    decreases |a|
  {
    if a == [] {
      assert a + b == b;
    } else {
      assert (a + b)[1..] == a[1..] + b;
      Append(conf, Next(conf, s, a[0]), a[1..], b);
    }
  }

  lemma Extend(conf: Settings, s: System, events: seq<Event>, t: System)
    requires Attainable(conf, s) && Happens(conf, s, events) && Then(conf, s, events) == t
    ensures Attainable(conf, t)
  {
    var now, before :| Happens(conf, Initially(conf, now), before) && Then(conf, Initially(conf, now), before) == s;
    Append(conf, Initially(conf, now), before, events);
    assert Happens(conf, Initially(conf, now), before + events);
  }

  // ---- the order of run_daemon ----

  lemma StoppedStep(conf: Settings, s: System, e: Event)
    requires May(conf, s, e)
    ensures Next(conf, s, e).pool.f.stopped <==> s.pool.f.stopped || StopsPool(s, e)
  {
    PoolMoves(conf, s, e);
    ClosingMoves(conf, s, e);
    if PoolLabel(e, s).Some? && !StopsPool(s, e) {
      OnlyStopStops(conf, s, e);
      if Asks(PoolLabel(e, s).value) {
        AskingKeepsOpen(conf.pool, s.pool, PoolLabel(e, s).value);
      } else {
        OthersKeepOpen(conf.pool, s.pool, PoolLabel(e, s).value);
      }
    }
  }

  lemma OnlyStopStops(conf: Settings, s: System, e: Event)
    requires May(conf, s, e) && !StopsPool(s, e)
    ensures PoolLabel(e, s) != Some(StopBegins)
  {
  }

  /** The pool is open exactly until run_daemon stops it. */
  lemma {:induction false} StoppedByRunDaemon(conf: Settings, s: System, events: seq<Event>)
    requires Happens(conf, s, events) && (s.pool.f.stopped <==> s.closing.StoppingPool?)
    ensures Then(conf, s, events).pool.f.stopped <==> Then(conf, s, events).closing.StoppingPool?
    decreases |events|
  {
    if events != [] {
      ClosingMoves(conf, s, events[0]);
      StoppedStep(conf, s, events[0]);
      StoppedByRunDaemon(conf, Next(conf, s, events[0]), events[1..]);
    }
  }

  lemma OpenBefore(conf: Settings, s: System)
    requires Attainable(conf, s)
    ensures s.pool.f.stopped <==> s.closing.StoppingPool?
  {
    var now, events :| Happens(conf, Initially(conf, now), events) && Then(conf, Initially(conf, now), events) == s;
    StoppedByRunDaemon(conf, Initially(conf, now), events);
  }

  // ---- shutdown, from jobs.shutdown() to the end of stop() ----

  /** No request handler is running a worker. */
  ghost predicate NoRequestHolds(s: System) {
    forall c :: c in s.tasks && !s.tasks[c].isJob ==> !s.tasks[c].phase.Holding?
  }

  lemma NobodyHolds(tasks: map<nat, Task>)
    requires JobTasks(tasks) == {} && forall c :: c in tasks && !tasks[c].isJob ==> !tasks[c].phase.Holding?
    ensures forall c :: c in tasks ==> !tasks[c].phase.Holding?
  {
    forall c | c in tasks ensures !tasks[c].phase.Holding? {
      assert c !in JobTasks(tasks);
    }
  }

  lemma NobodyOut(at: map<nat, Place>, tasks: map<nat, Task>)
    requires Linked(at, tasks) && forall c :: c in tasks ==> !tasks[c].phase.Holding?
    ensures forall w :: w in at ==> !at[w].Out?
  {
    forall w | w in at ensures !at[w].Out? {
      OutHasCaller(at, w);
    }
  }

  lemma UndisturbedPool(conf: Settings, s: System, events: seq<Event>)
    requires Happens(conf, s, events) && forall l :: Background(l) in events ==> Undisturbed(l)
    ensures forall l :: l in Projection(conf, s, events) ==> Undisturbed(l)
  {
    Projects(conf, s, events);
    var labels := Projection(conf, s, events);
    forall l | l in labels ensures Undisturbed(l) {
      CallersDisturbNobody(l);
      assert Background(l) in events || !Own(l);
    }
  }

  lemma CallersDisturbNobody(l: Label)
    ensures !Own(l) ==> Undisturbed(l)
  {
  }

  /** The pool's part of the shutdown: the labels that follow StopBegins. */
  lemma StopsAnOpenPool(conf: Settings, v: System, e: Event)
    requires Attainable(conf, v) && May(conf, v, e) && StopsPool(v, e)
    ensures !v.pool.f.stopped && Enabled(conf.pool, v.pool, StopBegins)
  {
    OpenBefore(conf, v);
  }

  lemma StopBeginsHere(conf: Settings, v: System, e: Event)
    requires May(conf, v, e) && StopsPool(v, e)
    ensures Enabled(conf.pool, v.pool, StopBegins) && Next(conf, v, e).pool == Step(conf.pool, v.pool, StopBegins)
  {
  }

  lemma StopProjects(conf: Settings, v: State, begun: System, after: seq<Event>)
    requires Reachable(conf.pool, v) && !v.f.stopped && Enabled(conf.pool, v, StopBegins)
    requires begun.pool == Step(conf.pool, v, StopBegins)
    requires Happens(conf, begun, after) && forall l :: Background(l) in after ==> Undisturbed(l)
    ensures forall w :: w in v.at ==> !v.at[w].Abandoned?
    ensures var labels := Projection(conf, begun, after);
            && Runs(conf.pool, begun.pool, labels)
            && After(conf.pool, begun.pool, labels) == Then(conf, begun, after).pool
            && forall l :: l in labels ==> Undisturbed(l)
  {
    NobodyAbandonedWhileOpen(conf.pool, v);
    Projects(conf, begun, after);
    UndisturbedPool(conf, begun, after);
  }

  /** What the daemon's shutdown leaves, in full. From any state in which jobs.shutdown()
      begins, whatever is submitted while it waits and whatever requests still run: once
      stop() has run undisturbed to its end, the pool counts exactly the victims of a
      sweep that was mid-kill, the workers still held, and those handed back too late for
      stop() to wait for; the latter two were out when stop() began. */
  lemma ShutdownLeaves(conf: Settings, s: System, b: Event, during: seq<Event>, v: System, e: Event, after: seq<Event>)
    requires Attainable(conf, s) && JobsShutDown(conf, s, b, during, v, e)
    requires Happens(conf, Next(conf, v, e), after) && forall l :: Background(l) in after ==> Undisturbed(l)
    requires Then(conf, Next(conf, v, e), after).pool.stop.Stopped?
    ensures var t := Then(conf, Next(conf, v, e), after).pool;
            && t.at.Keys == ToSet(SweepQueue(v.pool)) + OutSet(t.at) + ReleasingSet(t.at) && t.live <= t.at.Keys
            && t.f.total == |SweepQueue(v.pool)| + |OutSet(t.at)| + |ReleasingSet(t.at)|
            && OutSet(t.at) + ReleasingSet(t.at) <= OutSet(v.pool.at)
  {
    ShutdownAttains(conf, s, b, during, v, e);
    AttainablePool(conf, v);
    StopsAnOpenPool(conf, v, e);
    StopBeginsHere(conf, v, e);
    StopProjects(conf, v.pool, Next(conf, v, e), after);
    StopLeaves(conf.pool, v.pool, Projection(conf, Next(conf, v, e), after));
  }

  lemma {:induction false} NoRunNoRelease(conf: Settings, s: System, events: seq<Event>)
    requires Happens(conf, s, events) && forall e :: e in events ==> !e.RunEnds?
    ensures forall l :: l in Projection(conf, s, events) ==> !l.ReleaseScheduled?
    decreases |events|
  {
    if events != [] {
      assert events[0] in events;
      NoRunNoRelease(conf, Next(conf, s, events[0]), events[1..]);
      if PoolLabel(events[0], s).Some? { OnlyRunsRelease(conf, s, events[0]); }
    }
  }

  lemma OnlyRunsRelease(conf: Settings, s: System, e: Event)
    requires May(conf, s, e) && !e.RunEnds? && PoolLabel(e, s).Some?
    ensures !PoolLabel(e, s).value.ReleaseScheduled?
  {
  }

  lemma OutIsHeld(at: map<nat, Place>, tasks: map<nat, Task>)
    requires Linked(at, tasks)
    ensures OutSet(at) == {} <==> forall c :: c in tasks ==> !tasks[c].phase.Holding?
  {
    if OutSet(at) == {} {
      forall c | c in tasks ensures !tasks[c].phase.Holding? {
        if tasks[c].phase.Holding? { HeldIsOut(at, tasks, c); }
      }
    } else {
      var w :| w in OutSet(at);
      assert at[w] == Out(at[w].call);
    }
  }

  lemma HeldIsOut(at: map<nat, Place>, tasks: map<nat, Task>, c: nat)
    requires Linked(at, tasks) && c in tasks && tasks[c].phase.Holding?
    ensures tasks[c].phase.worker in OutSet(at)
  {
    var w := tasks[c].phase.worker;
    assert tasks[c].phase == Holding(w);
    assert w in at && at[w] == Out(c);
  }

  /** When no worker outlives the daemon: if no run ends while stop() is under way, stop()
      leaves nobody counted, and so nobody alive, if and only if no sweep was mid-kill and
      nobody, neither a job submitted too late nor a request, held a worker when it began. */
  lemma NobodyOutlivesIff(conf: Settings, s: System, b: Event, during: seq<Event>,
      v: System, e: Event, after: seq<Event>)
    requires Attainable(conf, s) && JobsShutDown(conf, s, b, during, v, e)
    requires Happens(conf, Next(conf, v, e), after) && forall l :: Background(l) in after ==> Undisturbed(l)
    requires forall a :: a in after ==> !a.RunEnds?
    requires Then(conf, Next(conf, v, e), after).pool.stop.Stopped?
    ensures var t := Then(conf, Next(conf, v, e), after).pool;
            && t.at.Keys == ToSet(SweepQueue(v.pool)) + OutSet(v.pool.at) && t.live <= t.at.Keys
            && t.f.total == |SweepQueue(v.pool)| + |OutSet(v.pool.at)|
            && (t.f.total == 0 <==>
                  !v.pool.sweep.SweepKilling? && forall c :: c in v.tasks ==> !v.tasks[c].phase.Holding?)
  {
    ShutdownAttains(conf, s, b, during, v, e);
    AttainableInv(conf, v);
    OutIsHeld(v.pool.at, v.tasks);
    AttainablePool(conf, v);
    StopsAnOpenPool(conf, v, e);
    StopBeginsHere(conf, v, e);
    StopProjects(conf, v.pool, Next(conf, v, e), after);
    NoRunNoRelease(conf, Next(conf, v, e), after);
    StopLeavesSweptAndOut(conf.pool, v.pool, Projection(conf, Next(conf, v, e), after));
  }

  /** Jobs first, then the pool: from any state in which jobs.shutdown() begins, if no job
      is submitted while it waits, no request runs a worker when it returns, and stop()
      and the background releases run their course, then the daemon ends up with no worker
      alive and none counted, if and only if no sweep was mid-kill when stop() began.
      Otherwise exactly that sweep's remaining victims are left. */
  lemma OrderlyShutdown(conf: Settings, s: System, b: Event, during: seq<Event>, v: System, e: Event, after: seq<Event>)
    requires Attainable(conf, s) && JobsShutDown(conf, s, b, during, v, e) && NoSubmit(during) && NoRequestHolds(v)
    requires Happens(conf, Next(conf, v, e), after) && forall l :: Background(l) in after ==> Undisturbed(l)
    requires Then(conf, Next(conf, v, e), after).pool.stop.Stopped?
    ensures var t := Then(conf, Next(conf, v, e), after).pool;
            && (t.f.total == 0 <==> !v.pool.sweep.SweepKilling?)
            && (!v.pool.sweep.SweepKilling? ==> t.live == {} && t.at == map[])
            && t.f.total == |SweepQueue(v.pool)| && t.live <= ToSet(SweepQueue(v.pool))
  {
    ShutdownAttains(conf, s, b, during, v, e);
    ShutdownWaitsForItsSnapshot(conf, s, b, during, v, e);
    AttainableInv(conf, v);
    NobodyHolds(v.tasks);
    NobodyOut(v.pool.at, v.tasks);
    AttainablePool(conf, v);
    StopsAnOpenPool(conf, v, e);
    StopBeginsHere(conf, v, e);
    StopProjects(conf, v.pool, Next(conf, v, e), after);
    StopLeavesOnlyTheInterruptedSweep(conf.pool, v.pool, Projection(conf, Next(conf, v, e), after));
  }

  // ---- what a late submit leaves behind ----

  lemma OnlyItsRunReleases(conf: Settings, s: System, e: Event, w: nat)
    requires SystemInv(conf, s) && May(conf, s, e) && PoolLabel(e, s) == Some(ReleaseScheduled(w))
    ensures e.RunEnds? && InPhase(s, e.id, Holding(w))
  {
  }

  lemma HolderIsUnique(conf: Settings, s: System, a: nat, b: nat, w: nat)
    requires SystemInv(conf, s) && InPhase(s, a, Holding(w)) && InPhase(s, b, Holding(w))
    ensures a == b
  {
    assert s.pool.at[w] == Out(a) && s.pool.at[w] == Out(b);
  }

  lemma {:induction false} NotReleased(conf: Settings, s: System, events: seq<Event>, id: nat, w: nat)
    requires SystemInv(conf, s) && Happens(conf, s, events) && InPhase(s, id, Holding(w))
    requires forall e :: e in events ==> !(e.RunEnds? && e.id == id)
    ensures ReleaseScheduled(w) !in Projection(conf, s, events)
    ensures InPhase(Then(conf, s, events), id, Holding(w))
    decreases |events|
  {
    if events != [] {
      var e, t := events[0], Next(conf, s, events[0]);
      assert e in events;
      if PoolLabel(e, s) == Some(ReleaseScheduled(w)) {
        OnlyItsRunReleases(conf, s, e, w);
        HolderIsUnique(conf, s, e.id, id, w);
      }
      StillHolds(conf, s, e, id, w);
      NextKeepsInv(conf, s, e);
      NotReleased(conf, t, events[1..], id, w);
    }
  }

  lemma StillHolds(conf: Settings, s: System, e: Event, id: nat, w: nat)
    requires SystemInv(conf, s) && May(conf, s, e) && InPhase(s, id, Holding(w)) && !(e.RunEnds? && e.id == id)
    ensures InPhase(Next(conf, s, e), id, Holding(w))
  {
    if e.Ask? || e.Look? { AnsweredOther(conf, s, e, id, w); }
  }

  lemma AnsweredHolds(t: System, asked: nat, answer: Answer, now: real, id: nat, w: nat)
    requires asked in t.tasks && asked != id && InPhase(t, id, Holding(w))
    ensures InPhase(Answered(t, asked, answer, now), id, Holding(w))
  {
  }

  lemma AnsweredOther(conf: Settings, s: System, e: Event, id: nat, w: nat)
    requires May(conf, s, e) && InPhase(s, id, Holding(w)) && (e.Ask? || e.Look?)
    ensures InPhase(Next(conf, s, e), id, Holding(w))
  {
    var t := s.(pool := PoolAfter(conf, s, e));
    match e
    case Ask(asked, now) => AnsweredHolds(t, asked, LoopTop(conf.pool, s.pool, asked).answer, now, id, w);
    case Look(i, now) => AnsweredHolds(t, s.pool.notified[i].call, Wake(conf.pool, s.pool, i).answer, now, id, w);
  }

  /** A job submitted after jobs.shutdown() took its snapshot is not told to stop, and if
      it runs a worker when stop() begins, stop() neither waits for that worker nor kills
      it. However the shutdown goes on, until the run ends the job still has the worker,
      the pool still counts it, and it lives unless it dies by itself. */
  lemma LateJobKeepsItsWorker(
      conf: Settings, s: System, b: Event, during: seq<Event>, v: System, e: Event, after: seq<Event>, id: nat, w: nat)
    requires Attainable(conf, s) && JobsShutDown(conf, s, b, during, v, e) && Happens(conf, Next(conf, v, e), after)
    requires id in JobTasks(v.tasks) && InPhase(v, id, Holding(w))
             && forall a :: a in after ==> !(a.RunEnds? && a.id == id)
    ensures id >= s.nextId && !NoSubmit(during) && JobTasks(s.tasks) != {}
    ensures var t := Then(conf, Next(conf, v, e), after);
            && InPhase(t, id, Holding(w)) && w in t.pool.at && t.pool.at[w] == Out(id) && t.pool.f.total > 0
            && (w in v.pool.live && Background(WorkerDies(w)) !in after ==> w in t.pool.live)
  {
    ShutdownWaitsForItsSnapshot(conf, s, b, during, v, e);
    ShutdownAttains(conf, s, b, during, v, e);
    StopSparesHolder(conf, v, e, after, id, w);
  }

  lemma StopBeginsAroundHolder(conf: Settings, v: System, e: Event, id: nat, w: nat)
    requires SystemInv(conf, v) && May(conf, v, e) && StopsPool(v, e) && InPhase(v, id, Holding(w))
    ensures var pool := Next(conf, v, e).pool; w in pool.at && pool.at[w] == Out(id) && pool.live == v.pool.live
  {
    assert v.pool.at[w] == Out(id);
    StopBeginsHere(conf, v, e);
    StopBeginsSparesBusy(conf.pool, v.pool, w);
  }

  lemma StopSparesHolder(conf: Settings, v: System, e: Event, after: seq<Event>, id: nat, w: nat)
    requires Attainable(conf, v) && May(conf, v, e) && StopsPool(v, e) && InPhase(v, id, Holding(w))
    requires Happens(conf, Next(conf, v, e), after) && forall a :: a in after ==> !(a.RunEnds? && a.id == id)
    ensures var t := Then(conf, Next(conf, v, e), after);
            && InPhase(t, id, Holding(w)) && w in t.pool.at && t.pool.at[w] == Out(id) && t.pool.f.total > 0
            && (w in v.pool.live && Background(WorkerDies(w)) !in after ==> w in t.pool.live)
  {
    AttainableInv(conf, v);
    StopBeginsAroundHolder(conf, v, e, id, w);
    StillHolds(conf, v, e, id, w);
    NextKeepsInv(conf, v, e);
    HolderKeeps(conf, Next(conf, v, e), after, id, w);
  }

  lemma HolderKeeps(conf: Settings, s: System, events: seq<Event>, id: nat, w: nat)
    requires SystemInv(conf, s) && Happens(conf, s, events) && InPhase(s, id, Holding(w))
    requires w in s.pool.at && s.pool.at[w] == Out(id) && forall e :: e in events ==> !(e.RunEnds? && e.id == id)
    ensures var t := Then(conf, s, events);
            && InPhase(t, id, Holding(w)) && w in t.pool.at && t.pool.at[w] == Out(id) && t.pool.f.total > 0
            && (w in s.pool.live && Background(WorkerDies(w)) !in events ==> w in t.pool.live)
  {
    NotReleased(conf, s, events, id, w);
    Projects(conf, s, events);
    var labels := Projection(conf, s, events);
    assert WorkerDies(w) in labels ==> Background(WorkerDies(w)) in events by { assert Own(WorkerDies(w)); }
    BusyIsLeftAlone(conf.pool, s.pool, labels, w);
  }

  lemma StopBeginsSparesBusy(cfg: Config, s: State, w: nat)
    requires Inv(cfg, s) && Enabled(cfg, s, StopBegins) && w in s.at && s.at[w].Out?
    ensures var t := Step(cfg, s, StopBegins); w in t.at && t.at[w] == s.at[w] && t.live == s.live
  {
    assert s.sweep.SweepKilling? ==> w !in SweepQueue(s);
  }

  // ---- a finished job is final ----

  ghost predicate Final(s: System, j: Job) {
    j.id < s.nextId && j.id !in s.tasks && forall k :: k in s.jobs && k.id == j.id ==> k == j
  }

  lemma FinalTaskEnd(conf: Settings, s: System, e: Event, j: Job)
    requires SystemInv(conf, s) && May(conf, s, e) && j.Terminal() && Final(s, j) && EndsTask(e)
    ensures Final(Next(conf, s, e), j)
  {
    var t := s.(pool := PoolAfter(conf, s, e));
    match e
    case Leave(i, _, now) => FinalEnd(conf, s, t, s.pool.leaving[i],
                              Deserted(s.tasks[s.pool.leaving[i]].phase.cancelled), now, j);
    case GiveUpEntering(id, cancelled, now) => FinalEnd(conf, s, t, id, Deserted(cancelled), now, j);
    case Settles(id, release, now) => FinalEnd(conf, s, t, id, Runner.EndingOf(s.tasks[id].phase.run, release), now, j);
  }

  lemma FinalTurn(conf: Settings, s: System, e: Event, j: Job)
    requires SystemInv(conf, s) && May(conf, s, e) && j.Terminal() && Final(s, j) && (e.Ask? || e.Look?)
    ensures Final(Next(conf, s, e), j)
  {
    var t := s.(pool := PoolAfter(conf, s, e));
    match e
    case Ask(id, now) => FinalAnswered(conf, s, t, id, LoopTop(conf.pool, s.pool, id).answer, now, j);
    case Look(i, now) => FinalAnswered(conf, s, t, s.pool.notified[i].call, Wake(conf.pool, s.pool, i).answer, now, j);
  }

  lemma FinalStore(conf: Settings, s: System, e: Event, j: Job)
    requires SystemInv(conf, s) && May(conf, s, e) && j.Terminal() && Final(s, j) && RewritesStore(e)
    ensures Final(Next(conf, s, e), j)
  {
    match e
    case Submit(prompt, timeoutSec, now) =>
      Jobs.SubmitBound(s.jobs, Jobs.NewJob(s.nextId, prompt, timeoutSec, now), now, conf.retention, conf.maxJobs);
    case CancelDead(id, now) =>
      Jobs.FindMeans(s.jobs, id);
      Jobs.PutMeans(s.jobs, Jobs.FinishCancelled(Jobs.Find(s.jobs, id).value, now));
    case List(now) => Jobs.ReapMeans(s.jobs, now, conf.retention, conf.maxJobs);
  }

  lemma FinalElsewhere(conf: Settings, s: System, e: Event, j: Job)
    requires May(conf, s, e) && Final(s, j) && !EndsTask(e) && !e.Ask? && !e.Look? && !RewritesStore(e)
    ensures Final(Next(conf, s, e), j)
  {
  }

  lemma FinalStep(conf: Settings, s: System, e: Event, j: Job)
    requires SystemInv(conf, s) && May(conf, s, e) && j.Terminal() && Final(s, j)
    ensures Final(Next(conf, s, e), j)
  {
    if EndsTask(e) { FinalTaskEnd(conf, s, e, j); }
    else if e.Ask? || e.Look? { FinalTurn(conf, s, e, j); }
    else if RewritesStore(e) { FinalStore(conf, s, e, j); }
    else { FinalElsewhere(conf, s, e, j); }
  }

  lemma FinalEnd(conf: Settings, s: System, t: System, id: nat, e: Runner.Ending, now: real, j: Job)
    requires SystemInv(conf, s) && Final(s, j) && id in s.tasks
    requires t.tasks == s.tasks && t.jobs == s.jobs && t.nextId == s.nextId
    ensures Final(EndTask(t, id, e, now), j)
  {
    Jobs.FindMeans(s.jobs, id);
    if s.tasks[id].isJob && Jobs.Find(s.jobs, id).Some? {
      Jobs.PutMeans(s.jobs, Jobs.Finished(Jobs.Find(s.jobs, id).value, e, now));
    }
  }

  lemma FinalAnswered(conf: Settings, s: System, t: System, id: nat, answer: Answer, now: real, j: Job)
    requires SystemInv(conf, s) && Final(s, j) && id in s.tasks
    requires t.tasks == s.tasks && t.jobs == s.jobs && t.nextId == s.nextId
    ensures Final(Answered(t, id, answer, now), j)
  {
    match answer
    case ShuttingDown => FinalEnd(conf, s, t, id, Runner.Refused("pool is shutting down"), now, j);
    case SpawnError(error) => FinalEnd(conf, s, t, id, Runner.Refused("worker spawn failed: " + error), now, j);
    case _ =>
  }

  lemma {:induction false} FinalRun(conf: Settings, s: System, events: seq<Event>, j: Job)
    requires SystemInv(conf, s) && Happens(conf, s, events) && j.Terminal() && Final(s, j)
    ensures Final(Then(conf, s, events), j)
    decreases |events|
  {
    if events != [] {
      FinalStep(conf, s, events[0], j);
      NextKeepsInv(conf, s, events[0]);
      FinalRun(conf, Next(conf, s, events[0]), events[1..], j);
    }
  }

  /** Terminal once: a finished job never changes again, in no field, whatever happens;
      it can only be dropped, and its id never comes back with anything else. */
  lemma TerminalOnce(conf: Settings, s: System, events: seq<Event>, j: Job)
    requires Attainable(conf, s) && Happens(conf, s, events) && j in s.jobs && j.Terminal()
    ensures forall k :: k in Then(conf, s, events).jobs && k.id == j.id ==> k == j
  {
    AttainableInv(conf, s);
    Jobs.FindMeans(s.jobs, j.id);
    forall k | k in s.jobs && k.id == j.id ensures k == j {
      assert Jobs.Find(s.jobs, j.id) == Some(k);
    }
    FinalRun(conf, s, events, j);
  }

  /** Store bound: right after any submit of any run, the store holds at most the larger
      of max_jobs and the number of jobs then running, plus the new one. */
  lemma StoreStaysBounded(conf: Settings, s: System, prompt: string, timeoutSec: real, now: real)
    requires Attainable(conf, s)
    ensures var t := Next(conf, s, Submit(prompt, timeoutSec, now));
            |t.jobs| <= Max(conf.maxJobs, |set j | j in s.jobs && j.status.Running?|) + 1
  {
    AttainableInv(conf, s);
    Jobs.SubmitBound(s.jobs, Jobs.NewJob(s.nextId, prompt, timeoutSec, now), now, conf.retention, conf.maxJobs);
  }
}

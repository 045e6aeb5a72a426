/** The runs of the model against run_daemon: what a run begins of its finally block, and
    which of it raises, is what run_daemon's own control flow makes of that. */
module DaemonTeardown {
  import opened RunDaemon
  import opened Daemon
  import opened DaemonShutdown

  /** jobs.shutdown() begins, and pool.stop() with it if there is nobody to wait for. */
  function JobsEffects(s: System): seq<Effect> {
    [ShutdownJobs] + if JobTasks(s.tasks) == {} then [StopPool] else []
  }

  /** The effects of the finally block that an event begins. */
  function EffectsOf(s: System, e: Event): seq<Effect> {
    match e
    case TearDown(unlinkRaises, hasRunner) =>
      [UnlinkPid] + if unlinkRaises then [] else if hasRunner then [CleanRunner] else JobsEffects(s)
    case CleanupEnds(_) => JobsEffects(s)
    case ShutdownEnds(raises) => if raises then [] else [StopPool]
    case _ => []
  }

  function Effects(conf: Settings, s: System, events: seq<Event>): seq<Effect>
    requires Happens(conf, s, events)
    decreases |events|
  {
    if events == [] then []
    else EffectsOf(s, events[0]) + Effects(conf, Next(conf, s, events[0]), events[1..])
  }

  /** Those of them that the event makes raise. */
  function RaisedBy(e: Event): set<Effect> {
    match e
    case TearDown(unlinkRaises, _) => if unlinkRaises then {UnlinkPid} else {}
    case CleanupEnds(raises) => if raises then {CleanRunner} else {}
    case ShutdownEnds(raises) => if raises then {ShutdownJobs} else {}
    case _ => {}
  }

  function Raised(events: seq<Event>): set<Effect> {
    if events == [] then {} else RaisedBy(events[0]) + Raised(events[1..])
  }

  /** The web server had been created. */
  function HadRunner(events: seq<Event>): bool {
    events != [] && ((events[0].TearDown? && events[0].hasRunner) || HadRunner(events[1..]))
  }

  /** How far the finally block is, after what it has begun and what of it raised. */
  predicate Record(c: Closing, begun: seq<Effect>, hasRunner: bool, fails: set<Effect>) {
    match c
    case Up => begun == [] && !hasRunner && fails == {}
    case Cleaning => begun == [UnlinkPid, CleanRunner] && hasRunner && fails == {}
    case Telling(_) =>
      && begun == [UnlinkPid] + (if hasRunner then [CleanRunner] else []) + [ShutdownJobs]
      && UnlinkPid !in fails && ShutdownJobs !in fails
    case StoppingPool => begun == Ended(hasRunner, fails) && UnlinkPid !in fails && ShutdownJobs !in fails
    case BrokenOff => begun == Ended(hasRunner, fails) && (UnlinkPid in fails || ShutdownJobs in fails)
  }

  lemma RecordMoves(s: System, e: Event, begun: seq<Effect>, hasRunner: bool, fails: set<Effect>)
    requires Record(s.closing, begun, hasRunner, fails) && Closes(e)
    requires match e
             case TearDown(_, _) => s.closing.Up?
             case CleanupEnds(_) => s.closing.Cleaning?
             case _ => s.closing.Telling?
    ensures Record(ClosingAfter(s, e), begun + EffectsOf(s, e),
                   hasRunner || (e.TearDown? && e.hasRunner), fails + RaisedBy(e))
  {
  }

  lemma RecordStep(conf: Settings, s: System, e: Event, begun: seq<Effect>, hasRunner: bool, fails: set<Effect>)
    requires May(conf, s, e) && Record(s.closing, begun, hasRunner, fails)
    ensures Record(Next(conf, s, e).closing, begun + EffectsOf(s, e),
                   hasRunner || (e.TearDown? && e.hasRunner), fails + RaisedBy(e))
  {
    ClosingMoves(conf, s, e);
    if Closes(e) {
      RecordMoves(s, e, begun, hasRunner, fails);
    } else {
      assert begun + [] == begun && fails + {} == fails;
    }
  }

  lemma Regroup(a: seq<Effect>, b: seq<Effect>, c: seq<Effect>)
    ensures a + b + c == a + (b + c)
  {
  }

  lemma {:induction false} RecordRun(
      conf: Settings, s: System, events: seq<Event>, begun: seq<Effect>, hasRunner: bool, fails: set<Effect>)
    requires Happens(conf, s, events) && Record(s.closing, begun, hasRunner, fails)
    ensures Record(Then(conf, s, events).closing, begun + Effects(conf, s, events),
                   hasRunner || HadRunner(events), fails + Raised(events))
    decreases |events|
  {
    if events == [] {
      assert begun + [] == begun && fails + {} == fails;
    } else {
      var e, t := events[0], Next(conf, s, events[0]);
      RecordStep(conf, s, e, begun, hasRunner, fails);
      RecordRun(conf, t, events[1..], begun + EffectsOf(s, e),
                hasRunner || (e.TearDown? && e.hasRunner), fails + RaisedBy(e));
      Regroup(begun, EffectsOf(s, e), Effects(conf, t, events[1..]));
      assert fails + RaisedBy(e) + Raised(events[1..]) == fails + Raised(events);
    }
  }

  lemma RecordIsPrefix(c: Closing, begun: seq<Effect>, hasRunner: bool, fails: set<Effect>)
    requires Record(c, begun, hasRunner, fails)
    ensures begun <= Ended(hasRunner, fails)
    ensures c.StoppingPool? || c.BrokenOff? ==> begun == Ended(hasRunner, fails)
    ensures StopPool in begun <==> c.StoppingPool?
  {
  }

  /** Every run of the daemon tears down as run_daemon's finally block does: what it has
      begun is a prefix of what run_daemon begins when the same effects raise and the same
      web server exists, in the same order, and all of it once the pool is being stopped
      or an exception has ended the block. The pool is stopped exactly in the runs that
      have got to pool.stop(). */
  lemma TearsDownLikeRunDaemon(conf: Settings, t0: real, events: seq<Event>)
    requires Happens(conf, Initially(conf, t0), events)
    ensures var t := Then(conf, Initially(conf, t0), events);
            var begun, ended := Effects(conf, Initially(conf, t0), events), Ended(HadRunner(events), Raised(events));
            && begun <= ended
            && (t.closing.StoppingPool? || t.closing.BrokenOff? ==> begun == ended)
            && (StopPool in begun <==> t.pool.f.stopped)
  {
    var s := Initially(conf, t0);
    RecordRun(conf, s, events, [], false, {});
    assert [] + Effects(conf, s, events) == Effects(conf, s, events) && {} + Raised(events) == Raised(events);
    RecordIsPrefix(Then(conf, s, events).closing, Effects(conf, s, events), HadRunner(events), Raised(events));
    StoppedByRunDaemon(conf, s, events);
  }

  /** The part of a set of failures that the finally block can see. */
  lemma EndedSees(hasRunner: bool, a: set<Effect>, b: set<Effect>)
    requires (UnlinkPid in a <==> UnlinkPid in b) && (ShutdownJobs in a <==> ShutdownJobs in b)
    ensures Ended(hasRunner, a) == Ended(hasRunner, b)
  {
  }

  /** And so a run that has come to its end is the second half of run_daemon's trace, for
      every way its first half can have gone that leads to the same finally block. */
  lemma CompletesTheTrace(conf: Settings, t0: real, events: seq<Event>, fails: set<Effect>)
    requires Happens(conf, Initially(conf, t0), events)
    requires var c := Then(conf, Initially(conf, t0), events).closing; c.StoppingPool? || c.BrokenOff?
    requires MakeDir !in fails && HasRunner(fails) == HadRunner(events)
    requires (UnlinkPid in fails <==> UnlinkPid in Raised(events))
             && (ShutdownJobs in fails <==> ShutdownJobs in Raised(events))
    ensures Trace(fails) == [MakeDir] + Begun(SERVING, fails) + Effects(conf, Initially(conf, t0), events)
  {
    TearsDownLikeRunDaemon(conf, t0, events);
    EndedSees(HasRunner(fails), fails, Raised(events));
  }
}

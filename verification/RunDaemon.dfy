/** run_daemon: what is started, what is torn down, and in what order, when any of its
    effects may raise or be cancelled. */
module RunDaemon {
  datatype Effect =
    | MakeDir | StartPool | CreateApp | SetupRunner | StartSite | WritePid | AwaitSignal
    | UnlinkPid | CleanRunner | ShutdownJobs | StopPool

  /** The daemon's life before its shutdown, if nothing raises. */
  const SERVING := [StartPool, CreateApp, SetupRunner, StartSite, WritePid, AwaitSignal]

  /** The effects of a plan that are begun: up to and including the first that raises. */
  function Begun(plan: seq<Effect>, fails: set<Effect>): seq<Effect> {
    if plan == [] then []
    else if plan[0] in fails then [plan[0]]
    else [plan[0]] + Begun(plan[1..], fails)
  }

  predicate AllWell(plan: seq<Effect>, fails: set<Effect>) {
    plan == [] || (plan[0] !in fails && AllWell(plan[1..], fails))
  }

  lemma {:induction false} BegunLater(plan: seq<Effect>, e: Effect, fails: set<Effect>)
    ensures Begun(plan + [e], fails) == if AllWell(plan, fails) then Begun(plan, fails) + [e] else Begun(plan, fails)
    ensures AllWell(plan + [e], fails) <==> AllWell(plan, fails) && e !in fails
    decreases |plan|
  {
    if plan == [] {
      assert [] + [e] == [e] && [e][1..] == [];
    } else {
      assert (plan + [e])[1..] == plan[1..] + [e];
      BegunLater(plan[1..], e, fails);
    }
  }

  lemma {:induction false} BegunMeans(plan: seq<Effect>, fails: set<Effect>)
    ensures AllWell(plan, fails) <==> forall e :: e in Begun(plan, fails) ==> e !in fails
    ensures forall e :: e in Begun(plan, fails) ==> e in plan
    ensures AllWell(plan, fails) ==> Begun(plan, fails) == plan
  {
    if plan != [] {
      BegunMeans(plan[1..], fails);
      assert plan == [plan[0]] + plan[1..];
    }
  }

  /** What the finally block begins. */
  function Ended(hasRunner: bool, fails: set<Effect>): seq<Effect> {
    if UnlinkPid in fails then [UnlinkPid]
    else
      [UnlinkPid] + (if hasRunner then [CleanRunner] else [])
      + (if ShutdownJobs in fails then [ShutdownJobs] else [ShutdownJobs, StopPool])
  }

  predicate HasRunner(fails: set<Effect>) {
    StartPool !in fails && CreateApp !in fails
  }

  /** Everything run_daemon begins, in order. */
  function Trace(fails: set<Effect>): seq<Effect> {
    if MakeDir in fails then [MakeDir]
    else [MakeDir] + Begun(SERVING, fails) + Ended(HasRunner(fails), fails)
  }

  lemma RunnerIsReady(fails: set<Effect>)
    ensures AllWell(SERVING[..2], fails) <==> HasRunner(fails)
  {
    var two := SERVING[..2];
    assert two[0] == StartPool && two[1..] == [CreateApp] && [CreateApp][1..] == [];
    assert AllWell(two[1..], fails) <==> CreateApp !in fails;
  }

  class Daemon {
    /** The effects that raise, or are cancelled. */
    const fails: set<Effect>
    var begun: seq<Effect>
    /** An exception is on its way out. */
    var raised: bool
    var hasRunner: bool

    constructor (fails: set<Effect>)
      ensures this.fails == fails && begun == [] && !raised && !hasRunner
    {
      this.fails := fails;
      begun, raised, hasRunner := [], false, false;
    }

    /** The first k effects of the plan are behind us. */
    ghost predicate Came(before: seq<Effect>, k: nat)
      requires k <= |SERVING|
      reads this
    {
      begun == before + Begun(SERVING[..k], fails) && (raised <==> !AllWell(SERVING[..k], fails))
    }

    /** One statement of the try block: skipped once an exception is on its way. */
    method Go(e: Effect, ghost before: seq<Effect>, ghost k: nat)
      requires k < |SERVING| && e == SERVING[k] && Came(before, k)
      modifies this`begun, this`raised
      ensures Came(before, k + 1)
    {
      BegunLater(SERVING[..k], e, fails);
      assert SERVING[..k + 1] == SERVING[..k] + [e];
      if !raised {
        begun := begun + [e];
        raised := e in fails;
      }
    }

    /** The try block. */
    method Serve()
      requires !raised && !hasRunner
      modifies this
      ensures begun == old(begun) + Begun(SERVING, fails) && (raised <==> !AllWell(SERVING, fails))
      ensures hasRunner <==> HasRunner(fails)
    {
      ghost var before := begun;
      assert SERVING[..0] == [];
      Go(StartPool, before, 0);
      Go(CreateApp, before, 1);
      RunnerIsReady(fails);
      hasRunner := !raised;
      Go(SetupRunner, before, 2);
      Go(StartSite, before, 3);
      Go(WritePid, before, 4);
      Go(AwaitSignal, before, 5);
      assert SERVING[..6] == SERVING;
    }

    /** The finally block, with the try statement inside it. */
    method TearDown()
      modifies this`begun, this`raised
      ensures begun == old(begun) + Ended(hasRunner, fails)
      ensures raised <==>
                old(raised) || UnlinkPid in fails || (hasRunner && CleanRunner in fails)
                || ShutdownJobs in fails || StopPool in fails
    {
      begun := begun + [UnlinkPid];
      if UnlinkPid in fails {
        raised := true;
        return;
      }
      if hasRunner {
        begun := begun + [CleanRunner];
        raised := raised || CleanRunner in fails;
      }
      begun := begun + [ShutdownJobs];
      if ShutdownJobs in fails {
        raised := true;
        return;
      }
      begun := begun + [StopPool];
      raised := raised || StopPool in fails;
    }

    /** run_daemon */
    method Run()
      requires begun == [] && !raised && !hasRunner
      modifies this
      ensures begun == Trace(fails)
      ensures raised <==> exists e :: e in Trace(fails) && e in fails
    {
      TraceRaises(fails);
      begun := [MakeDir];
      if MakeDir in fails {
        raised := true;
        return;
      }
      Serve();
      TearDown();
    }
  }

  lemma EndedMeans(hasRunner: bool, fails: set<Effect>)
    ensures var t := Ended(hasRunner, fails);
            && (exists e :: e in t && e in fails) ==
               (UnlinkPid in fails || (hasRunner && CleanRunner in fails) || ShutdownJobs in fails || StopPool in fails)
  {
    var t := Ended(hasRunner, fails);
    assert UnlinkPid in t;
    if UnlinkPid !in fails {
      assert hasRunner ==> t[1] == CleanRunner;
      assert t[if hasRunner then 2 else 1] == ShutdownJobs;
      assert ShutdownJobs !in fails ==> t[if hasRunner then 3 else 2] == StopPool;
    }
  }

  /** A normal return means that nothing that was begun raised. */
  lemma TraceRaises(fails: set<Effect>)
    ensures (exists e :: e in Trace(fails) && e in fails) <==>
            MakeDir in fails || !AllWell(SERVING, fails) || UnlinkPid in fails
            || (HasRunner(fails) && CleanRunner in fails) || ShutdownJobs in fails || StopPool in fails
  {
    var served, ended := Begun(SERVING, fails), Ended(HasRunner(fails), fails);
    BegunMeans(SERVING, fails);
    EndedMeans(HasRunner(fails), fails);
    if MakeDir in fails {
      assert MakeDir in Trace(fails);
    } else {
      forall e ensures e in Trace(fails) <==> e == MakeDir || e in served || e in ended {
        assert Trace(fails) == [MakeDir] + served + ended;
      }
    }
  }

  lemma {:induction false} BegunIff(plan: seq<Effect>, i: nat, fails: set<Effect>)
    requires i < |plan| && forall a, b :: 0 <= a < b < |plan| ==> plan[a] != plan[b]
    ensures plan[i] in Begun(plan, fails) <==> forall k :: 0 <= k < i ==> plan[k] !in fails
  {
    if i > 0 {
      BegunIff(plan[1..], i - 1, fails);
      assert plan[1..][i - 1] == plan[i] && forall k :: 0 < k < i ==> plan[1..][k - 1] == plan[k];
    }
  }

  /** Serving begins with the i-th of its effects exactly if what comes before it, and making
      the directory, did not raise. */
  lemma ServedIff(i: nat, fails: set<Effect>)
    requires i < |SERVING|
    ensures SERVING[i] in Trace(fails) <==> MakeDir !in fails && forall k :: 0 <= k < i ==> SERVING[k] !in fails
  {
    BegunIff(SERVING, i, fails);
    var served, ended := Begun(SERVING, fails), Ended(HasRunner(fails), fails);
    assert SERVING[i] !in ended;
    if MakeDir !in fails { InEither([MakeDir] + served, ended, SERVING[i]); }
  }

  /** Start-up in order: the pool is warmed before anything can reach it, the web server is
      made, set up and bound before the pid file says where it is, and only then does the
      daemon wait to be told to stop. Each of these begins if and only if nothing before
      it has raised. */
  lemma ServesInOrder(fails: set<Effect>)
    ensures var t := Trace(fails);
            && t[0] == MakeDir
            && (StartPool in t <==> {MakeDir} !! fails)
            && (CreateApp in t <==> {MakeDir, StartPool} !! fails)
            && (SetupRunner in t <==> {MakeDir, StartPool, CreateApp} !! fails)
            && (StartSite in t <==> {MakeDir, StartPool, CreateApp, SetupRunner} !! fails)
            && (WritePid in t <==> {MakeDir, StartPool, CreateApp, SetupRunner, StartSite} !! fails)
            && (AwaitSignal in t <==> {MakeDir, StartPool, CreateApp, SetupRunner, StartSite, WritePid} !! fails)
  {
    ServedIff(0, fails);
    ServedIff(1, fails);
    ServedIff(2, fails);
    ServedIff(3, fails);
    ServedIff(4, fails);
    ServedIff(5, fails);
  }

  lemma TailOf(head: seq<Effect>, hasRunner: bool, fails: set<Effect>)
    ensures var e := Ended(hasRunner, fails);
            var t := head + e;
            && (StopPool in e <==> UnlinkPid !in fails && ShutdownJobs !in fails)
            && (ShutdownJobs in e <==> UnlinkPid !in fails)
            && (CleanRunner in e <==> UnlinkPid !in fails && hasRunner)
            && (StopPool in e ==> |t| >= 3 && t[|t| - 2..] == [ShutdownJobs, StopPool])
            && (StopPool in e && CleanRunner in e ==> t[|t| - 3] == CleanRunner)
  {
    var e := Ended(hasRunner, fails);
    assert UnlinkPid !in fails ==> e[if hasRunner then 2 else 1] == ShutdownJobs && (hasRunner ==> e[1] == CleanRunner);
    assert UnlinkPid !in fails && ShutdownJobs !in fails ==> e[|e| - 1] == StopPool && e[|e| - 2] == ShutdownJobs;
  }

  lemma NotBegun(plan: seq<Effect>, fails: set<Effect>, e: Effect)
    requires e !in plan && e != MakeDir
    ensures e !in [MakeDir] + Begun(plan, fails)
  {
    BegunMeans(plan, fails);
  }

  lemma InEither(a: seq<Effect>, b: seq<Effect>, e: Effect)
    ensures e in a + b <==> e in a || e in b
  {
  }

  /** The shutdown order: whatever raises and wherever, the pool is stopped if and only
      if making the directory, removing the pid file and shutting the jobs down do not
      raise, and then that is the last thing done, right after the jobs were shut down.
      The jobs are shut down unless one of the first two raises, and the web server is
      taken down right before them if it was ever created. */
  lemma JobsThenPool(fails: set<Effect>)
    ensures var t := Trace(fails);
            && (StopPool in t <==> MakeDir !in fails && UnlinkPid !in fails && ShutdownJobs !in fails)
            && (ShutdownJobs in t <==> MakeDir !in fails && UnlinkPid !in fails)
            && (CleanRunner in t <==> ShutdownJobs in t && StartPool !in fails && CreateApp !in fails)
            && (StopPool in t ==> |t| >= 3 && t[|t| - 2..] == [ShutdownJobs, StopPool])
            && (StopPool in t && CleanRunner in t ==> t[|t| - 3] == CleanRunner)
  {
    if MakeDir !in fails {
      var head, ended := [MakeDir] + Begun(SERVING, fails), Ended(HasRunner(fails), fails);
      NotBegun(SERVING, fails, StopPool);
      NotBegun(SERVING, fails, ShutdownJobs);
      NotBegun(SERVING, fails, CleanRunner);
      InEither(head, ended, StopPool);
      InEither(head, ended, ShutdownJobs);
      InEither(head, ended, CleanRunner);
      TailOf(head, HasRunner(fails), fails);
    }
  }
}

/** What becomes of a job: every way its task can end, and the record it leaves. */
module DaemonJobs {
  import opened Wrappers
  import opened Errors
  import opened Runner
  import Jobs
  import opened JobStoreClass
  import opened PoolModel
  import opened Daemon
  import opened DaemonSafety

  /** The task of the job is over and the job's record is as its ending says; no other job
      and no other task has changed. */
  ghost predicate EndedJob(s: System, t: System, id: nat, e: Ending, now: real) {
    && t.tasks == s.tasks - {id}
    && Jobs.Find(s.jobs, id).Some? && Jobs.Find(t.jobs, id).Some?
    && EndsAs(Jobs.Find(s.jobs, id).value, Jobs.Find(t.jobs, id).value, e, now)
    && forall k :: k != id ==> Jobs.Find(t.jobs, k) == Jobs.Find(s.jobs, k)
  }

  lemma FinishedEndsAs(j: Job, e: Ending, now: real)
    ensures EndsAs(j, Jobs.Finished(j, e, now), e, now)
  {
  }

  lemma EndTaskEnds(s: System, t: System, id: nat, e: Ending, now: real)
    requires JobsMatch(s.jobs, s.tasks, s.unborn, s.nextId) && id in s.tasks && s.tasks[id].isJob
    requires t.tasks == s.tasks && t.jobs == s.jobs
    ensures EndedJob(s, EndTask(t, id, e, now), id, e, now)
  {
    Jobs.FindMeans(s.jobs, id);
    var before := Jobs.Find(s.jobs, id).value;
    FinishedEndsAs(before, e, now);
    FindOthers(s.jobs, Jobs.Finished(before, e, now));
  }

  /** A job whose run is over and whose worker has been handed back, or whose wait for that
      was cancelled: it is cancelled exactly if one of the two was, has succeeded exactly if
      the worker gave a reply that is not an error, and then with that text, and has failed
      otherwise, after a timeout as one worth retrying. */
  lemma SettledJob(conf: Settings, s: System, id: nat, release: ReleaseEnd, now: real)
    requires SystemInv(conf, s) && May(conf, s, Settles(id, release, now)) && s.tasks[id].isJob
    ensures var t, run := Next(conf, s, Settles(id, release, now)), s.tasks[id].phase.run;
            && EndedJob(s, t, id, EndingOf(run, release), now)
            && var j := Jobs.Find(t.jobs, id).value;
            && (j.status == Jobs.CancelledStatus <==> run.RunCancelled? || release.WaitCancelled?)
            && (j.status == Jobs.Succeeded <==> release.ReleaseDone? && run.Replied? && !run.reply.isError)
            && (j.status == Jobs.Succeeded ==> j.text == run.reply.text && j.durationMs == run.reply.durationMs)
            && (release.ReleaseDone? && run.RunTimedOut? ==>
                  j.error == Str("worker timed out") && j.failure == Some(Failure("timeout", 504, true, None)))
            && (release.ReleaseDone? && run.NoResult? ==>
                  j.error == Str(run.message) && j.failure == Some(Failure("worker_failed", 502, false, None)))
  {
    EndTaskEnds(s, s, id, EndingOf(s.tasks[id].phase.run, release), now);
    OutcomeMeans(s.tasks[id].phase.run);
  }

  /** What the pool refuses a request with. */
  function Refusal(a: Answer): string
    requires a.ShuttingDown? || a.SpawnError?
  {
    match a
    case ShuttingDown => "pool is shutting down"
    case SpawnError(error) => "worker spawn failed: " + error
  }

  lemma RefusedEnds(s: System, t: System, id: nat, a: Answer, now: real)
    requires JobsMatch(s.jobs, s.tasks, s.unborn, s.nextId) && id in s.tasks && s.tasks[id].isJob
    requires t.tasks == s.tasks && t.jobs == s.jobs && (a.ShuttingDown? || a.SpawnError?)
    ensures var u := Answered(t, id, a, now);
            && EndedJob(s, u, id, Refused(Refusal(a)), now)
            && Unavailable(Jobs.Find(u.jobs, id).value, Refusal(a))
  {
    EndTaskEnds(s, t, id, Refused(Refusal(a)), now);
    RefusedMeans(Refusal(a));
  }

  /** The job has failed for want of a worker, and is worth submitting again. */
  predicate Unavailable(j: Job, message: string) {
    && j.status == Jobs.FailedStatus && j.error == Str(message)
    && j.failure == Some(Failure("pool_unavailable", 503, true, None))
  }

  /** A job that the pool refuses, at once or when it is woken, has failed with the pool's
      reason and is worth retrying. */
  lemma RefusedJob(conf: Settings, s: System, e: Event, l: Label, now: real)
    requires SystemInv(conf, s) && May(conf, s, e) && PoolLabel(e, s) == Some(l)
    requires (e.Ask? || e.Look?) && e.now == now && s.tasks[CallerOf(s.pool, l)].isJob
    requires var a := AnswerOf(conf.pool, s.pool, l).value; a.ShuttingDown? || a.SpawnError?
    ensures var t, id, a := Next(conf, s, e), CallerOf(s.pool, l), AnswerOf(conf.pool, s.pool, l).value;
            && EndedJob(s, t, id, Refused(Refusal(a)), now)
            && Unavailable(Jobs.Find(t.jobs, id).value, Refusal(a))
  {
    RefusedEnds(s, s.(pool := PoolAfter(conf, s, e)), CallerOf(s.pool, l),
                AnswerOf(conf.pool, s.pool, l).value, now);
  }

  /** A job that leaves the queue is cancelled if it was told to stop, and has otherwise
      waited too long. */
  lemma DesertingJob(conf: Settings, s: System, e: Event, id: nat, cancelled: bool, now: real)
    requires SystemInv(conf, s) && May(conf, s, e) && id in s.tasks && s.tasks[id].isJob
    requires || e == GiveUpEntering(id, cancelled, now)
             || (e.Leave? && e.now == now && s.pool.leaving[e.index] == id && s.tasks[id].phase == Leaving(cancelled))
    ensures var t := Next(conf, s, e);
            && Jobs.Find(t.jobs, id).Some?
            && var j := Jobs.Find(t.jobs, id).value;
            && EndedJob(s, t, id, if cancelled then Cancelled else Refused("no worker available in time"), now)
            && (cancelled ==> j.status == Jobs.CancelledStatus)
            && (!cancelled ==> Unavailable(j, "no worker available in time"))
  {
    EndTaskEnds(s, s.(pool := PoolAfter(conf, s, e)), id, Deserted(cancelled), now);
    RefusedMeans("no worker available in time");
  }
}
